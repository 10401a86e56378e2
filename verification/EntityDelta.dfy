/** Entity vectors, and the application of a delta to the entities of the committed view. */
module EntityDelta {
  import opened Prelude
  import opened Order
  import opened InterestModel

  function KindRank(kind: EntityKind): nat {
    match kind
    case PlayerKind => 0
    case GridKind => 1
    case VoxelChunkKind => 2
    case DeathDropKind => 3
  }

  predicate KeyLess(a: EntityKey, b: EntityKey) {
    LexLess(a.0, b.0) || (a.0 == b.0 && KindRank(a.1) < KindRank(b.1))
  }

  lemma KeyLessIsStrictOrder()
    ensures StrictOrder(KeyLess)
  {
    LexIsStrictOrder();
    forall a, b: EntityKey ensures a == b || KeyLess(a, b) || KeyLess(b, a) {
      assert a.0 == b.0 || LexLess(a.0, b.0) || LexLess(b.0, a.0);
    }
    forall a, b, c: EntityKey | KeyLess(a, b) && KeyLess(b, c) ensures KeyLess(a, c) {
      assert LexLess(a.0, b.0) && LexLess(b.0, c.0) ==> LexLess(a.0, c.0);
    }
  }

  function Keys(entities: seq<Entity>): (keys: seq<EntityKey>)
    ensures |keys| == |entities|
  {
    seq(|entities|, i requires 0 <= i < |entities| => KeyOf(entities[i]))
  }

  function RemovalKeys(removed: seq<Removal>): (keys: seq<EntityKey>)
    ensures |keys| == |removed|
  {
    seq(|removed|, i requires 0 <= i < |removed| => RemovalKey(removed[i]))
  }

  predicate Named(entities: seq<Entity>, key: EntityKey) {
    exists i :: 0 <= i < |entities| && KeyOf(entities[i]) == key
  }

  // ---- an ordered map of entities --------------------------------------------------------

  type Index = seq<(EntityKey, Entity)>

  /** Inserting each entity in turn. */
  function PutAll(index: Index, entities: seq<Entity>): Index {
    if entities == [] then index
    else
      var last := entities[|entities| - 1];
      Put(KeyLess, PutAll(index, entities[..|entities| - 1]), KeyOf(last), last)
  }

  function RemoveAll(index: Index, keys: seq<EntityKey>): Index {
    if keys == [] then index
    else Without(KeyLess, RemoveAll(index, keys[..|keys| - 1]), keys[|keys| - 1])
  }

  function Values(index: Index): (values: seq<Entity>)
    ensures |values| == |index|
  {
    seq(|index|, i requires 0 <= i < |index| => index[i].1)
  }

  function Collected(entities: seq<Entity>): Index { PutAll([], entities) }

  /** The entities as a finite map, the last of equal identities winning. */
  function ByKey(entities: seq<Entity>): map<EntityKey, Entity> {
    if entities == [] then map[]
    else
      var last := entities[|entities| - 1];
      ByKey(entities[..|entities| - 1])[KeyOf(last) := last]
  }

  lemma {:induction false} ByKeyNames(entities: seq<Entity>)
    ensures forall k :: k in ByKey(entities) <==> Named(entities, k)
    ensures forall k | k in ByKey(entities) :: KeyOf(ByKey(entities)[k]) == k && ByKey(entities)[k] in entities
  {
    if entities != [] {
      var n := |entities| - 1;
      ByKeyNames(entities[..n]);
      forall k ensures Named(entities, k) <==> Named(entities[..n], k) || k == KeyOf(entities[n]) {
        if Named(entities[..n], k) {
          var i :| 0 <= i < n && KeyOf(entities[..n][i]) == k;
          assert KeyOf(entities[i]) == k;
        }
      }
    }
  }

  function KeySet(keys: seq<EntityKey>): set<EntityKey> { set k | k in keys }

  /** The entities of `entities` are `m`, in key order. */
  ghost predicate Listing(entities: seq<Entity>, m: map<EntityKey, Entity>) {
    Lists(KeyLess, Keyed(entities), m)
  }

  function Keyed(entities: seq<Entity>): (index: Index)
    ensures |index| == |entities|
  {
    seq(|entities|, i requires 0 <= i < |entities| => (KeyOf(entities[i]), entities[i]))
  }

  /** What a delta means: enter, override, remove. */
  function Algebra(m: map<EntityKey, Entity>, entered: seq<Entity>, replaced: seq<Entity>, removed: seq<Removal>)
    : map<EntityKey, Entity>
  {
    (m + ByKey(entered) + ByKey(replaced)) - KeySet(RemovalKeys(removed))
  }

  // ---- inserting and removing in a loop is map algebra -----------------------------------

  lemma {:induction false} PutAllLists(index: Index, m: map<EntityKey, Entity>, entities: seq<Entity>)
    requires Lists(KeyLess, index, m)
    ensures Lists(KeyLess, PutAll(index, entities), m + ByKey(entities))
  {
    hide Lists, StrictOrder, Put, KeyLess;
    KeyLessIsStrictOrder();
    if entities == [] {
      assert m + ByKey(entities) == m;
    } else {
      var n := |entities| - 1;
      var last := entities[n];
      PutAllLists(index, m, entities[..n]);
      PutLists(KeyLess, PutAll(index, entities[..n]), m + ByKey(entities[..n]), KeyOf(last), last);
      assert m + ByKey(entities) == (m + ByKey(entities[..n]))[KeyOf(last) := last];
    }
  }

  lemma {:induction false} RemoveAllLists(index: Index, m: map<EntityKey, Entity>, keys: seq<EntityKey>)
    requires Lists(KeyLess, index, m)
    ensures Lists(KeyLess, RemoveAll(index, keys), m - KeySet(keys))
  {
    hide Lists, StrictOrder, Without, KeyLess;
    KeyLessIsStrictOrder();
    if keys == [] {
      assert m - KeySet(keys) == m;
    } else {
      var n := |keys| - 1;
      RemoveAllLists(index, m, keys[..n]);
      WithoutLists(KeyLess, RemoveAll(index, keys[..n]), m - KeySet(keys[..n]), keys[n]);
      assert KeySet(keys) == KeySet(keys[..n]) + {keys[n]} by { assert keys == keys[..n] + [keys[n]]; }
      assert m - KeySet(keys) == (m - KeySet(keys[..n])) - {keys[n]};
    }
  }

  lemma EmptyLists()
    ensures Lists<EntityKey, Entity>(KeyLess, [], map[])
  {}

  lemma CollectedLists(entities: seq<Entity>)
    ensures Lists(KeyLess, Collected(entities), ByKey(entities))
  {
    EmptyLists();
    PutAllLists([], map[], entities);
    assert map[] + ByKey(entities) == ByKey(entities);
  }

  /** An index whose entries carry their own keys is recovered from its values. */
  lemma ValuesAreListed(index: Index, m: map<EntityKey, Entity>)
    requires Lists(KeyLess, index, m) && forall k | k in m :: KeyOf(m[k]) == k
    ensures Listing(Values(index), m)
  {
    assert Keyed(Values(index)) == index;
  }

  /** In a strictly sorted vector every entity is found under its own key. */
  lemma {:induction false} SortedFinds(entities: seq<Entity>)
    requires Ascending(KeyLess, Keys(entities))
    ensures forall i | 0 <= i < |entities| ::
              KeyOf(entities[i]) in ByKey(entities) && ByKey(entities)[KeyOf(entities[i])] == entities[i]
    ensures Listing(entities, ByKey(entities))
    ensures |ByKey(entities)| == |entities|
  {
    KeyLessIsStrictOrder();
    hide StrictOrder, KeyLess, Ascending, ByKey, Sorted;
    SortedFindsAll(entities);
    KeyedSorted(entities);
    EveryKeyListed(entities);
    ListsSize(KeyLess, Keyed(entities), ByKey(entities));
  }

  lemma {:induction false} KeyedSorted(entities: seq<Entity>)
    requires Ascending(KeyLess, Keys(entities))
    ensures Sorted(KeyLess, Keyed(entities))
  {
    KeyLessIsStrictOrder();
    hide StrictOrder, KeyLess, Ascending;
    forall i, j | 0 <= i < j < |entities| ensures KeyLess(Keyed(entities)[i].0, Keyed(entities)[j].0) {
      AscendingIsSorted(KeyLess, Keys(entities), i, j);
    }
  }

  lemma EveryKeyListed(entities: seq<Entity>)
    ensures forall k | k in ByKey(entities) :: Listed(Keyed(entities), k)
  {
    ByKeyNames(entities);
    hide ByKey;
    forall k | k in ByKey(entities) ensures Listed(Keyed(entities), k) {
      var i :| 0 <= i < |entities| && KeyOf(entities[i]) == k;
      assert Keyed(entities)[i].0 == k;
    }
  }

  lemma AscendingPrefix(entities: seq<Entity>, n: nat)
    requires Ascending(KeyLess, Keys(entities)) && n <= |entities|
    ensures Ascending(KeyLess, Keys(entities[..n]))
  {
    hide KeyLess;
    assert Keys(entities[..n]) == Keys(entities)[..n];
  }

  lemma {:induction false} SortedFindsAll(entities: seq<Entity>)
    requires Ascending(KeyLess, Keys(entities))
    ensures forall i | 0 <= i < |entities| ::
              KeyOf(entities[i]) in ByKey(entities) && ByKey(entities)[KeyOf(entities[i])] == entities[i]
  {
    if entities != [] {
      KeyLessIsStrictOrder();
      hide StrictOrder, KeyLess, Ascending;
      var n := |entities| - 1;
      AscendingPrefix(entities, n);
      SortedFindsAll(entities[..n]);
      forall i | 0 <= i < n ensures entities[i] == entities[..n][i] && KeyOf(entities[i]) != KeyOf(entities[n]) {
        AscendingIsSorted(KeyLess, Keys(entities), i, n);
      }
    }
  }

  // ---- vectors ---------------------------------------------------------------------------

  predicate VoxelLess(a: (int, int, int), b: (int, int, int)) {
    a.0 < b.0 || (a.0 == b.0 && (a.1 < b.1 || (a.1 == b.1 && a.2 < b.2)))
  }

  function BlockIds(blocks: seq<PublicBlock>): seq<string> {
    seq(|blocks|, i requires 0 <= i < |blocks| => blocks[i].blockId)
  }

  function VoxelCoordinates(voxels: seq<Voxel>): seq<(int, int, int)> {
    seq(|voxels|, i requires 0 <= i < |voxels| => (voxels[i].x, voxels[i].y, voxels[i].z))
  }

  /** Kind, payload variant and payload identity agree. */
  predicate PayloadMatches(entity: Entity) {
    match entity.payload
    case PlayerPayload(value) => entity.kind.PlayerKind? && entity.entityId == value.playerId
    case GridPayload(value) => entity.kind.GridKind? && entity.entityId == value.gridId
    case VoxelChunkPayload(value) => entity.kind.VoxelChunkKind? && entity.entityId == value.chunkId
    case DeathDropPayload(value) => entity.kind.DeathDropKind? && entity.entityId == value.dropId
  }

  // ---- one delta mentions an identity once -----------------------------------------------

  function Operations(entered: seq<Entity>, replaced: seq<Entity>, removed: seq<Removal>): seq<EntityKey> {
    Keys(entered) + Keys(replaced) + RemovalKeys(removed)
  }

  predicate Distinct<T(==)>(values: seq<T>) {
    forall i, j | 0 <= i < j < |values| :: values[i] != values[j]
  }

  function DisjointOutcome(entered: seq<Entity>, replaced: seq<Entity>, removed: seq<Removal>,
      limits: Limits): Outcome {
    Require(Saturated(|entered| + |replaced| + |removed|) <= limits.maxEntities, ResourceLimit)
    .And(Require(Distinct(Operations(entered, replaced, removed)), InvalidDelta))
  }

  method ValidateDisjoint(entered: seq<Entity>, replaced: seq<Entity>, removed: seq<Removal>, limits: Limits)
    returns (r: Outcome)
    ensures r == DisjointOutcome(entered, replaced, removed, limits)
  {
    if Saturated(|entered| + |replaced| + |removed|) > limits.maxEntities { return Fail(ResourceLimit); }
    var keys := Operations(entered, replaced, removed);
    var identities: set<EntityKey> := {};
    for i := 0 to |keys|
      invariant identities == set k | k in keys[..i]
      invariant Distinct(keys[..i])
    {
      if keys[i] in identities {
        var j :| 0 <= j < i && keys[..i][j] == keys[i];
        assert keys[j] == keys[i];
        return Fail(InvalidDelta);
      }
      identities := identities + {keys[i]};
      assert keys[..i + 1] == keys[..i] + [keys[i]];
    }
    assert keys[..|keys|] == keys;
    r := Pass;
  }

  // ---- applying one delta ----------------------------------------------------------------

  /** Enter only what is absent, replace only what is present and older, remove only what is present. */
  predicate Applicable(m: map<EntityKey, Entity>, entered: seq<Entity>, replaced: seq<Entity>, removed: seq<Removal>) {
    && (forall i | 0 <= i < |entered| :: KeyOf(entered[i]) !in m)
    && (forall i | 0 <= i < |replaced| :: Newer(m, replaced[i]))
    && (forall i | 0 <= i < |removed| :: RemovalKey(removed[i]) in m)
  }

  predicate Newer(m: map<EntityKey, Entity>, replacement: Entity) {
    KeyOf(replacement) in m && m[KeyOf(replacement)].projectedRevision < replacement.projectedRevision
  }

  function Final(current: seq<Entity>, entered: seq<Entity>, replaced: seq<Entity>, removed: seq<Removal>): Index {
    RemoveAll(PutAll(PutAll(Collected(current), entered), replaced), RemovalKeys(removed))
  }

  function Applied(current: seq<Entity>, entered: seq<Entity>, replaced: seq<Entity>, removed: seq<Removal>,
      limits: Limits)
    : Result<seq<Entity>, ErrorCode>
  {
    if !Applicable(ByKey(current), entered, replaced, removed) then Err(InvalidDelta)
    else
      var entities := Values(Final(current, entered, replaced, removed));
      if |entities| > limits.maxEntities then Err(ResourceLimit) else Ok(entities)
  }

  lemma IndexKnows(index: Index, m: map<EntityKey, Entity>, key: EntityKey)
    requires Lists(KeyLess, index, m)
    ensures Has(KeyLess, index, key) <==> key in m
    ensures key in m ==> Get(KeyLess, index, key) == m[key]
  {
    hide StrictOrder, KeyLess;
    KeyLessIsStrictOrder();
    HasIsMembership(KeyLess, index, m, key);
  }

  lemma PrefixPut(index: Index, entities: seq<Entity>, i: nat)
    requires i < |entities|
    ensures PutAll(index, entities[..i + 1])
        == Put(KeyLess, PutAll(index, entities[..i]), KeyOf(entities[i]), entities[i])
  {
    assert entities[..i + 1][..i] == entities[..i];
  }

  lemma PrefixRemove(index: Index, keys: seq<EntityKey>, i: nat)
    requires i < |keys|
    ensures RemoveAll(index, keys[..i + 1]) == Without(KeyLess, RemoveAll(index, keys[..i]), keys[i])
  {
    assert keys[..i + 1][..i] == keys[..i];
  }

  /** Whether a key is present after some of the operations, when they name distinct identities. */
  lemma StillThere(m: map<EntityKey, Entity>, entities: seq<Entity>, key: EntityKey)
    requires !Named(entities, key)
    ensures key in m + ByKey(entities) <==> key in m
    ensures key in m ==> (m + ByKey(entities))[key] == m[key]
  {
    ByKeyNames(entities);
  }

  lemma Unmentioned(entered: seq<Entity>, replaced: seq<Entity>, removed: seq<Removal>)
    requires Distinct(Operations(entered, replaced, removed))
    ensures forall i | 0 <= i < |entered| :: !Named(entered[..i], KeyOf(entered[i]))
    ensures forall i | 0 <= i < |replaced| ::
              !Named(entered, KeyOf(replaced[i])) && !Named(replaced[..i], KeyOf(replaced[i]))
    ensures forall i | 0 <= i < |removed| ::
              !Named(entered, RemovalKey(removed[i])) && !Named(replaced, RemovalKey(removed[i]))
              && RemovalKey(removed[i]) !in RemovalKeys(removed)[..i]
  {
    var keys, n, p := Operations(entered, replaced, removed), |entered|, |entered| + |replaced|;
    assert forall i | 0 <= i < n :: keys[i] == KeyOf(entered[i]);
    assert forall i | 0 <= i < |replaced| :: keys[n + i] == KeyOf(replaced[i]);
    assert forall i | 0 <= i < |removed| :: keys[p + i] == RemovalKey(removed[i]);
  }

  method Collect(entities: seq<Entity>) returns (index: Index)
    ensures index == Collected(entities)
  {
    hide Put;
    index := [];
    for i := 0 to |entities|
      invariant index == PutAll([], entities[..i])
    {
      PrefixPut([], entities, i);
      index := Put(KeyLess, index, KeyOf(entities[i]), entities[i]);
    }
    assert entities[..|entities|] == entities;
  }

  method EnterAll(start: Index, ghost m: map<EntityKey, Entity>, entered: seq<Entity>) returns (ok: bool, index: Index)
    requires Lists(KeyLess, start, m)
    requires forall i | 0 <= i < |entered| :: !Named(entered[..i], KeyOf(entered[i]))
    ensures ok == forall i | 0 <= i < |entered| :: KeyOf(entered[i]) !in m
    ensures ok ==> index == PutAll(start, entered)
  {
    hide Put, Lists, KeyLess, Has, Get;
    index := start;
    for i := 0 to |entered|
      invariant index == PutAll(start, entered[..i])
      invariant forall j | 0 <= j < i :: KeyOf(entered[j]) !in m
    {
      PrefixPut(start, entered, i);
      PutAllLists(start, m, entered[..i]);
      IndexKnows(index, m + ByKey(entered[..i]), KeyOf(entered[i]));
      StillThere(m, entered[..i], KeyOf(entered[i]));
      var existed := Has(KeyLess, index, KeyOf(entered[i]));
      index := Put(KeyLess, index, KeyOf(entered[i]), entered[i]);
      if existed { return false, index; }
    }
    assert entered[..|entered|] == entered;
    ok := true;
  }

  method ReplaceAll(start: Index, ghost m: map<EntityKey, Entity>, replaced: seq<Entity>)
      returns (ok: bool, index: Index)
    requires Lists(KeyLess, start, m)
    requires forall i | 0 <= i < |replaced| :: !Named(replaced[..i], KeyOf(replaced[i]))
    ensures ok == forall i | 0 <= i < |replaced| :: Newer(m, replaced[i])
    ensures ok ==> index == PutAll(start, replaced)
  {
    hide Put, Lists, KeyLess, Has, Get;
    index := start;
    for i := 0 to |replaced|
      invariant index == PutAll(start, replaced[..i])
      invariant forall j | 0 <= j < i :: Newer(m, replaced[j])
    {
      var key := KeyOf(replaced[i]);
      PrefixPut(start, replaced, i);
      PutAllLists(start, m, replaced[..i]);
      IndexKnows(index, m + ByKey(replaced[..i]), key);
      StillThere(m, replaced[..i], key);
      if !Has(KeyLess, index, key) { return false, index; }
      if replaced[i].projectedRevision <= Get(KeyLess, index, key).projectedRevision { return false, index; }
      index := Put(KeyLess, index, key, replaced[i]);
    }
    assert replaced[..|replaced|] == replaced;
    ok := true;
  }

  method DropAll(start: Index, ghost m: map<EntityKey, Entity>, removed: seq<Removal>) returns (ok: bool, index: Index)
    requires Lists(KeyLess, start, m)
    requires forall i | 0 <= i < |removed| :: RemovalKey(removed[i]) !in RemovalKeys(removed)[..i]
    ensures ok == forall i | 0 <= i < |removed| :: RemovalKey(removed[i]) in m
    ensures ok ==> index == RemoveAll(start, RemovalKeys(removed))
  {
    hide Without, Lists, KeyLess, Has, Get;
    index := start;
    ghost var keys := RemovalKeys(removed);
    for i := 0 to |removed|
      invariant index == RemoveAll(start, keys[..i])
      invariant forall j | 0 <= j < i :: RemovalKey(removed[j]) in m
    {
      var key := RemovalKey(removed[i]);
      PrefixRemove(start, keys, i);
      RemoveAllLists(start, m, keys[..i]);
      IndexKnows(index, m - KeySet(keys[..i]), key);
      if !Has(KeyLess, index, key) { return false, index; }
      index := Without(KeyLess, index, key);
    }
    assert keys[..|removed|] == keys;
    ok := true;
  }

  /** Distinct identities: each operation sees an entity exactly as the committed view has it. */
  lemma OthersUnseen(m: map<EntityKey, Entity>, entered: seq<Entity>, replaced: seq<Entity>, removed: seq<Removal>)
    requires Distinct(Operations(entered, replaced, removed))
    ensures forall i | 0 <= i < |replaced| :: Newer(m + ByKey(entered), replaced[i]) <==> Newer(m, replaced[i])
    ensures forall i | 0 <= i < |removed| ::
              RemovalKey(removed[i]) in m + ByKey(entered) + ByKey(replaced) <==> RemovalKey(removed[i]) in m
  {
    Unmentioned(entered, replaced, removed);
    ByKeyNames(entered);
    ByKeyNames(replaced);
    hide Operations, ByKey;
  }

  method ApplyOperations(
    current: seq<Entity>, entered: seq<Entity>, replaced: seq<Entity>, removed: seq<Removal>, limits: Limits)
    returns (r: Result<seq<Entity>, ErrorCode>)
    requires Distinct(Operations(entered, replaced, removed))
    ensures r == Applied(current, entered, replaced, removed, limits)
  {
    Unmentioned(entered, replaced, removed);
    ghost var m := ByKey(current);
    OthersUnseen(m, entered, replaced, removed);
    hide Operations, Lists, KeyLess, PutAll, RemoveAll, ByKey, Values, Newer;
    var index := Collect(current);
    CollectedLists(current);
    var ok;
    PutAllLists(index, m, entered);
    ok, index := EnterAll(index, m, entered);
    if !ok { return Err(InvalidDelta); }
    PutAllLists(index, m + ByKey(entered), replaced);
    ok, index := ReplaceAll(index, m + ByKey(entered), replaced);
    if !ok { return Err(InvalidDelta); }
    ok, index := DropAll(index, m + ByKey(entered) + ByKey(replaced), removed);
    if !ok { return Err(InvalidDelta); }
    var entities := Values(index);
    if |entities| > limits.maxEntities { return Err(ResourceLimit); }
    r := Ok(entities);
  }

  // ---- what an accepted delta does -------------------------------------------------------

  lemma AlgebraKeys(m: map<EntityKey, Entity>, entered: seq<Entity>, replaced: seq<Entity>, removed: seq<Removal>)
    requires forall k | k in m :: KeyOf(m[k]) == k
    ensures forall k | k in Algebra(m, entered, replaced, removed) ::
        KeyOf(Algebra(m, entered, replaced, removed)[k]) == k
  {
    ByKeyNames(entered);
    ByKeyNames(replaced);
    hide ByKey, Named, KeySet;
  }

  /** The four loops carry out map algebra and list the result in canonical order. */
  lemma FinalLists(current: seq<Entity>, entered: seq<Entity>, replaced: seq<Entity>, removed: seq<Removal>)
    ensures Listing(Values(Final(current, entered, replaced, removed)),
        Algebra(ByKey(current), entered, replaced, removed))
  {
    hide Lists;
    var m := ByKey(current);
    CollectedLists(current);
    PutAllLists(Collected(current), m, entered);
    PutAllLists(PutAll(Collected(current), entered), m + ByKey(entered), replaced);
    RemoveAllLists(PutAll(PutAll(Collected(current), entered), replaced), m + ByKey(entered) + ByKey(replaced),
      RemovalKeys(removed));
    ByKeyNames(current);
    AlgebraKeys(m, entered, replaced, removed);
    ValuesAreListed(Final(current, entered, replaced, removed), Algebra(m, entered, replaced, removed));
  }

  /** An accepted delta is exactly enter, override, remove on the finite map of visible
      entities, listed in canonical order. */
  lemma DeltaIsMapAlgebra(current: seq<Entity>, entered: seq<Entity>, replaced: seq<Entity>, removed: seq<Removal>,
      limits: Limits)
    requires Applied(current, entered, replaced, removed, limits).Ok?
    ensures Listing(Applied(current, entered, replaced, removed, limits).value,
        Algebra(ByKey(current), entered, replaced, removed))
  {
    hide Listing, Algebra, Final, Applicable;
    FinalLists(current, entered, replaced, removed);
  }

  lemma ListingUnique(a: seq<Entity>, b: seq<Entity>, m: map<EntityKey, Entity>)
    requires Listing(a, m) && Listing(b, m)
    ensures a == b
  {
    KeyLessIsStrictOrder();
    ListsUnique(KeyLess, Keyed(a), Keyed(b), m);
    forall i | 0 <= i < |a| ensures a[i] == b[i] {
      assert Keyed(a)[i].1 == Keyed(b)[i].1;
    }
  }

  lemma ListingAscends(a: seq<Entity>, m: map<EntityKey, Entity>)
    requires Listing(a, m)
    ensures Ascending(KeyLess, Keys(a)) && |a| == |m|
    ensures forall i | 0 <= i < |a| :: KeyOf(a[i]) in m && m[KeyOf(a[i])] == a[i]
  {
    KeyLessIsStrictOrder();
    ListsSize(KeyLess, Keyed(a), m);
    hide StrictOrder, KeyLess;
    forall i | 0 < i < |a| ensures KeyLess(Keys(a)[i - 1], Keys(a)[i]) {
      assert KeyLess(Keyed(a)[i - 1].0, Keyed(a)[i].0);
    }
    forall i | 0 <= i < |a| ensures KeyOf(a[i]) in m && m[KeyOf(a[i])] == a[i] {
      assert Keyed(a)[i].0 in m;
    }
  }

  /** The three operations name distinct identities, so they may be carried out in any order. */
  lemma OrderOfOperationsIrrelevant(
    current: seq<Entity>, entered: seq<Entity>, replaced: seq<Entity>, removed: seq<Removal>, limits: Limits)
    requires Distinct(Operations(entered, replaced, removed))
    requires Applied(current, entered, replaced, removed, limits).Ok?
    ensures var c, out := Collected(current), Applied(current, entered, replaced, removed, limits).value;
            var gone := RemovalKeys(removed);
            && Values(RemoveAll(PutAll(PutAll(c, replaced), entered), gone)) == out
            && Values(PutAll(RemoveAll(PutAll(c, entered), gone), replaced)) == out
            && Values(PutAll(RemoveAll(PutAll(c, replaced), gone), entered)) == out
            && Values(PutAll(PutAll(RemoveAll(c, gone), entered), replaced)) == out
            && Values(PutAll(PutAll(RemoveAll(c, gone), replaced), entered)) == out
  {
    var m, e, p, x := ByKey(current), ByKey(entered), ByKey(replaced), KeySet(RemovalKeys(removed));
    MapOperationsCommute(m, entered, replaced, removed);
    DeltaIsMapAlgebra(current, entered, replaced, removed, limits);
    ByKeyNames(current);
    AlgebraKeys(m, entered, replaced, removed);
    CollectedLists(current);
    hide Lists, Listing, ByKey, KeySet, Operations, Applied;
    var c, gone := Collected(current), RemovalKeys(removed);
    var all, out := Algebra(m, entered, replaced, removed), Applied(current, entered, replaced, removed, limits).value;
    PutAllLists(c, m, entered);
    PutAllLists(c, m, replaced);
    RemoveAllLists(c, m, gone);
    PutAllLists(PutAll(c, replaced), m + p, entered);
    RemoveAllLists(PutAll(PutAll(c, replaced), entered), m + p + e, gone);
    SameValues(RemoveAll(PutAll(PutAll(c, replaced), entered), gone), out, all);
    RemoveAllLists(PutAll(c, entered), m + e, gone);
    PutAllLists(RemoveAll(PutAll(c, entered), gone), m + e - x, replaced);
    SameValues(PutAll(RemoveAll(PutAll(c, entered), gone), replaced), out, all);
    RemoveAllLists(PutAll(c, replaced), m + p, gone);
    PutAllLists(RemoveAll(PutAll(c, replaced), gone), m + p - x, entered);
    SameValues(PutAll(RemoveAll(PutAll(c, replaced), gone), entered), out, all);
    PutAllLists(RemoveAll(c, gone), m - x, entered);
    PutAllLists(PutAll(RemoveAll(c, gone), entered), m - x + e, replaced);
    SameValues(PutAll(PutAll(RemoveAll(c, gone), entered), replaced), out, all);
    PutAllLists(RemoveAll(c, gone), m - x, replaced);
    PutAllLists(PutAll(RemoveAll(c, gone), replaced), m - x + p, entered);
    SameValues(PutAll(PutAll(RemoveAll(c, gone), replaced), entered), out, all);
  }

  lemma SameValues(index: Index, out: seq<Entity>, all: map<EntityKey, Entity>)
    requires Lists(KeyLess, index, all) && Listing(out, all) && forall k | k in all :: KeyOf(all[k]) == k
    ensures Values(index) == out
  {
    ValuesAreListed(index, all);
    ListingUnique(Values(index), out, all);
  }

  lemma MapOperationsCommute(m: map<EntityKey, Entity>, entered: seq<Entity>, replaced: seq<Entity>,
      removed: seq<Removal>)
    requires Distinct(Operations(entered, replaced, removed))
    ensures var e, p, x := ByKey(entered), ByKey(replaced), KeySet(RemovalKeys(removed));
            var all := Algebra(m, entered, replaced, removed);
            && m + p + e - x == all
            && m + e - x + p == all
            && m + p - x + e == all
            && m - x + e + p == all
            && m - x + p + e == all
  {
    hide Operations, ByKey, KeySet, Distinct, RemovalKeys, Separate;
    DisjointMaps(entered, replaced, removed);
    UpdatesCommute(m, ByKey(entered), ByKey(replaced), KeySet(RemovalKeys(removed)));
    EarlyRemovalsCommute(m, ByKey(entered), ByKey(replaced), KeySet(RemovalKeys(removed)));
  }

  /** No key is in two of the three. */
  predicate Separate<K, V>(e: map<K, V>, p: map<K, V>, x: set<K>) {
    e.Keys !! p.Keys && e.Keys !! x && p.Keys !! x
  }

  lemma UpdatesCommute<K, V>(m: map<K, V>, e: map<K, V>, p: map<K, V>, x: set<K>)
    requires Separate(e, p, x)
    ensures m + p + e - x == m + e + p - x
    ensures m + e - x + p == m + e + p - x
    ensures m + p - x + e == m + e + p - x
  {
    assert forall k | k in e :: k !in p && k !in x;
    assert forall k | k in p :: k !in x;
  }

  lemma EarlyRemovalsCommute<K, V>(m: map<K, V>, e: map<K, V>, p: map<K, V>, x: set<K>)
    requires Separate(e, p, x)
    ensures m - x + e + p == m + e + p - x
    ensures m - x + p + e == m + e + p - x
  {
    assert forall k | k in e :: k !in p && k !in x;
    assert forall k | k in p :: k !in x;
  }

  lemma DisjointMaps(entered: seq<Entity>, replaced: seq<Entity>, removed: seq<Removal>)
    requires Distinct(Operations(entered, replaced, removed))
    ensures Separate(ByKey(entered), ByKey(replaced), KeySet(RemovalKeys(removed)))
  {
    Unmentioned(entered, replaced, removed);
    ByKeyNames(entered);
    ByKeyNames(replaced);
    RemovalsNamed(removed);
    hide Operations, ByKey, KeySet, RemovalKeys;
  }

  lemma RemovalsNamed(removed: seq<Removal>)
    ensures forall k ::
              k in KeySet(RemovalKeys(removed)) <==> exists i :: 0 <= i < |removed| && RemovalKey(removed[i]) == k
  {
    forall i | 0 <= i < |removed| ensures RemovalKey(removed[i]) in RemovalKeys(removed) {
      assert RemovalKeys(removed)[i] == RemovalKey(removed[i]);
    }
  }

  /** Exactly the entered identities are new and the removed ones gone, and no more than the
      limit are left. */
  lemma DeltaSize(current: seq<Entity>, entered: seq<Entity>, replaced: seq<Entity>, removed: seq<Removal>,
      limits: Limits)
    requires Ascending(KeyLess, Keys(current))
    requires Distinct(Operations(entered, replaced, removed))
    requires Applied(current, entered, replaced, removed, limits).Ok?
    ensures var out := Applied(current, entered, replaced, removed, limits).value;
            |out| == |current| + |entered| - |removed| <= limits.maxEntities && Ascending(KeyLess, Keys(out))
  {
    var m, out := ByKey(current), Applied(current, entered, replaced, removed, limits).value;
    SortedFinds(current);
    DeltaIsMapAlgebra(current, entered, replaced, removed, limits);
    ListingAscends(out, Algebra(m, entered, replaced, removed));
    DistinctSizes(entered, replaced, removed);
    ApplicableKeys(m, entered, replaced, removed);
    SizeOfUpdate(m, ByKey(entered), ByKey(replaced), KeySet(RemovalKeys(removed)));
    hide Operations, Ascending, Listing, ByKey, KeySet;
  }

  lemma SizeOfUpdate<K, V>(m: map<K, V>, e: map<K, V>, p: map<K, V>, x: set<K>)
    requires e.Keys !! m.Keys && p.Keys <= m.Keys && x <= m.Keys
    ensures |m + e + p - x| == |m| + |e| - |x|
  {
    assert (m + e + p - x).Keys == (m.Keys + e.Keys) - x;
    assert |(m.Keys + e.Keys) - x| == |m.Keys + e.Keys| - |x|;
  }

  lemma ApplicableKeys(m: map<EntityKey, Entity>, entered: seq<Entity>, replaced: seq<Entity>, removed: seq<Removal>)
    requires Applicable(m, entered, replaced, removed)
    ensures ByKey(entered).Keys !! m.Keys && ByKey(replaced).Keys <= m.Keys && KeySet(RemovalKeys(removed)) <= m.Keys
  {
    ByKeyNames(entered);
    ByKeyNames(replaced);
    RemovalsNamed(removed);
    hide ByKey, KeySet, RemovalKeys;
  }

  lemma DistinctSizes(entered: seq<Entity>, replaced: seq<Entity>, removed: seq<Removal>)
    requires Distinct(Operations(entered, replaced, removed))
    ensures |ByKey(entered)| == |entered| && |KeySet(RemovalKeys(removed))| == |removed|
  {
    hide ByKey, KeySet, Keys, RemovalKeys, Distinct, Named;
    DistinctParts(Keys(entered), Keys(replaced), RemovalKeys(removed));
    DistinctSize(Keys(entered));
    DistinctSize(RemovalKeys(removed));
    ByKeyNames(entered);
    EntitiesNamed(entered);
    hide *;
    assert ByKey(entered).Keys == KeySet(Keys(entered));
  }

  lemma DistinctParts<T>(a: seq<T>, b: seq<T>, c: seq<T>)
    requires Distinct(a + b + c)
    ensures Distinct(a) && Distinct(c)
  {
    var all := a + b + c;
    assert forall i | 0 <= i < |a| :: all[i] == a[i];
    assert forall i | 0 <= i < |c| :: all[|a| + |b| + i] == c[i];
  }

  lemma EntitiesNamed(entities: seq<Entity>)
    ensures forall k :: k in KeySet(Keys(entities)) <==> Named(entities, k)
  {
    forall i | 0 <= i < |entities| ensures KeyOf(entities[i]) in Keys(entities) {
      assert Keys(entities)[i] == KeyOf(entities[i]);
    }
  }

  lemma {:induction false} DistinctSize(keys: seq<EntityKey>)
    requires Distinct(keys)
    ensures |KeySet(keys)| == |keys|
  {
    if keys == [] {
      assert KeySet(keys) == {};
    } else {
      var n := |keys| - 1;
      DistinctSize(keys[..n]);
      assert KeySet(keys) == KeySet(keys[..n]) + {keys[n]} by { assert keys == keys[..n] + [keys[n]]; }
    }
  }

  /** While an identity stays visible its entity is unchanged or has a strictly higher revision. */
  lemma RevisionsRise(
    current: seq<Entity>, entered: seq<Entity>, replaced: seq<Entity>, removed: seq<Removal>, limits: Limits, i: nat,
      j: nat)
    requires Ascending(KeyLess, Keys(current))
    requires Applied(current, entered, replaced, removed, limits).Ok?
    requires i < |current| && j < |Applied(current, entered, replaced, removed, limits).value|
    requires KeyOf(current[i]) == KeyOf(Applied(current, entered, replaced, removed, limits).value[j])
    ensures var after := Applied(current, entered, replaced, removed, limits).value[j];
            if Named(replaced, KeyOf(after))
              then after in replaced && current[i].projectedRevision < after.projectedRevision
            else after == current[i]
  {
    var m, out := ByKey(current), Applied(current, entered, replaced, removed, limits).value;
    SortedFinds(current);
    DeltaIsMapAlgebra(current, entered, replaced, removed, limits);
    ListingAscends(out, Algebra(m, entered, replaced, removed));
    ByKeyNames(replaced);
    ApplicableKeys(m, entered, replaced, removed);
    hide Ascending, Listing, ByKey, KeySet;
    assert KeyOf(out[j]) in m;
  }
}
