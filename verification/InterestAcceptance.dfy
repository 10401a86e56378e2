/** What an accepted frame is bound to, and why a frame is refused: the conditions on baselines,
    deltas and handoffs one by one, in the order in which the first broken one decides. */
module InterestAcceptance {
  import opened Prelude
  import opened Order
  import opened InterestModel
  import opened EntityDelta
  import opened PrivateLinkage
  import opened InterestFrames
  import A = Address

  /** The first condition that fails decides. */
  function First(outcomes: seq<Outcome>): Outcome {
    if outcomes == [] then Pass
    else if outcomes[0].Fail? then outcomes[0]
    else First(outcomes[1..])
  }

  lemma {:induction false} FirstPasses(outcomes: seq<Outcome>)
    ensures First(outcomes).Pass? <==> forall i | 0 <= i < |outcomes| :: outcomes[i].Pass?
  {
    if outcomes != [] {
      FirstPasses(outcomes[1..]);
      assert outcomes == [outcomes[0]] + outcomes[1..];
    }
  }

  lemma {:induction false} FirstAppended(a: seq<Outcome>, b: seq<Outcome>)
    ensures First(a + b) == First(a).And(First(b))
    decreases |a|
  {
    if a == [] {
      assert a + b == b;
    } else {
      assert (a + b)[1..] == a[1..] + b;
      FirstAppended(a[1..], b);
    }
  }

  lemma FirstOf1(a: Outcome)
    ensures First([a]) == a
  {
    assert [a][1..] == [];
  }

  lemma FirstOf2(a: Outcome, b: Outcome)
    ensures First([a, b]) == a.And(b)
  {
    FirstOf1(a);
    FirstOf1(b);
    FirstAppended([a], [b]);
    assert [a] + [b] == [a, b];
  }

  lemma FirstOf3(a: Outcome, b: Outcome, c: Outcome)
    ensures First([a, b, c]) == a.And(b).And(c)
  {
    FirstOf2(a, b);
    FirstOf1(c);
    FirstAppended([a, b], [c]);
    assert [a, b] + [c] == [a, b, c];
  }

  // ---- headers ---------------------------------------------------------------------------

  /** The outer header speaks for the welcomed schemas and content and the registered universe. */
  predicate SpeaksFor(w: WelcomeBinding, r: Registry, o: Outer) {
    && o.projectionSchemaVersion == 4
    && o.schemaVersion == w.worldSchemaVersion && o.contentManifestVersion == w.contentManifestVersion
    && o.universeId == r.universeId && o.universeManifestHash == r.universeManifestHash
    && o.registryHash == r.registryHash && o.cellAddress.universeId == r.universeId
  }

  /** Both bodies are absent, or both are registered. */
  predicate BodiesKnown(r: Registry, gravity: string, voxel: string) {
    || (gravity == "" && voxel == "")
    || (gravity != "" && voxel != "" && gravity in r.bodies && voxel in r.bodies)
  }

  predicate EnvironmentKnown(r: Registry, e: Environment) {
    && e.bodyId in r.bodies && r.bodies[e.bodyId].displayName == e.bodyName
    && r.bodies[e.bodyId].scaleClass == e.scaleClass
    && e.nearestBodyId in r.bodies && r.bodies[e.nearestBodyId].displayName == e.nearestBodyName
  }

  predicate InterestSpeaksFor(r: Registry, i: Interest, kind: FrameKind) {
    && i.schemaVersion == 2 && i.frameKind == kind
    && i.registryHash == r.registryHash && i.universeManifestHash == r.universeManifestHash
    && i.cellAddress.universeId == r.universeId && i.localOrigin.universeId == r.universeId
  }

  predicate HeadersRepeat(o: Outer, i: Interest) {
    o.cellAddress == i.cellAddress && o.eventSequence == i.eventSequence && o.tick == i.tick
      && o.worldHash == i.worldHash
  }

  /** A spectator carries nothing private; a player only what is its own. */
  predicate RoleKept(role: Role, observer: ObserverClass, private: Option<ActorPrivate>, motion: Option<PlayerMotion>) {
    match role
    case Spectator => observer == PublicOriginSpectator && private == None && motion == None
    case Player(id) =>
      && observer == BoundPlayer
      && (private == None || private.value.player.playerId == id) && (motion == None || motion.value.playerId == id)
  }

  function Placed(r: Registry, a: A.UniverseAddress): Outcome {
    Require(A.ValidIn(r.dimensions, a, r.universeId), InvalidAddress)
  }

  function OuterChecks(w: WelcomeBinding, r: Registry, o: Outer): seq<Outcome> {
    [Require(SpeaksFor(w, r, o), BindingMismatch), Placed(r, o.cellAddress),
     Require(BodiesKnown(r, o.gravityBodyId, o.voxelBodyId), BindingMismatch)]
  }

  function InterestChecks(r: Registry, i: Interest, kind: FrameKind): seq<Outcome> {
    [Require(InterestSpeaksFor(r, i, kind), BindingMismatch), Placed(r, i.cellAddress), Placed(r, i.localOrigin)]
  }

  lemma OuterIs(w: WelcomeBinding, r: Registry, o: Outer)
    ensures OuterOutcome(w, r, o) == First(OuterChecks(w, r, o))
  {
    hide First;
    FirstOf3(Require(SpeaksFor(w, r, o), BindingMismatch), Placed(r, o.cellAddress),
             Require(BodiesKnown(r, o.gravityBodyId, o.voxelBodyId), BindingMismatch));
    hide A.ValidIn;
  }

  lemma InterestIs(r: Registry, i: Interest, kind: FrameKind)
    ensures HeaderOutcome(r, i, kind) == First(InterestChecks(r, i, kind))
  {
    hide First;
    FirstOf3(Require(InterestSpeaksFor(r, i, kind), BindingMismatch), Placed(r, i.cellAddress),
      Placed(r, i.localOrigin));
    hide A.ValidIn;
  }

  lemma EnvironmentIs(r: Registry, e: Environment)
    ensures EnvironmentOutcome(r, e) == Require(EnvironmentKnown(r, e), BindingMismatch)
  {}

  predicate OptionalKnown(r: Registry, e: Option<Environment>) { e.Some? ==> EnvironmentKnown(r, e.value) }

  lemma OptionalEnvironmentIs(r: Registry, e: Option<Environment>)
    ensures OptionalEnvironment(r, e) == Require(OptionalKnown(r, e), BindingMismatch)
  {}

  lemma RoleIs(role: Role, observer: ObserverClass, private: Option<ActorPrivate>, motion: Option<PlayerMotion>)
    ensures RoleOutcome(role, observer, private, motion)
        == Require(RoleKept(role, observer, private, motion), BindingMismatch)
  {}

  // ---- entity vectors --------------------------------------------------------------------

  predicate KindBefore(a: EntityKind, b: EntityKind) {
    match a
    case PlayerKind => b != PlayerKind
    case GridKind => b == VoxelChunkKind || b == DeathDropKind
    case VoxelChunkKind => b == DeathDropKind
    case DeathDropKind => false
  }

  /** The canonical order of identities: the id as text, then player, grid, voxel chunk, drop. */
  lemma KeyOrder(a: EntityKey, b: EntityKey)
    ensures KeyLess(a, b) <==>
              (exists k: nat :: DiffersAt(a.0, b.0, k)) || (a.0 == b.0 && KindBefore(a.1, b.1))
  {
    LexLessMeans(a.0, b.0);
    hide LexLess, DiffersAt;
  }

  /** Every pair in order, not only neighbours. */
  lemma AscendingPairs<K(!new)>(less: (K, K) -> bool, keys: seq<K>)
    requires StrictOrder(less)
    ensures Ascending(less, keys) <==> forall i, j | 0 <= i < j < |keys| :: less(keys[i], keys[j])
  {
    if Ascending(less, keys) {
      forall i, j | 0 <= i < j < |keys| ensures less(keys[i], keys[j]) {
        hide StrictOrder;
        AscendingIsSorted(less, keys, i, j);
      }
    }
  }

  ghost predicate EntitiesInOrder(entities: seq<Entity>) {
    forall i, j | 0 <= i < j < |entities| ::
      || LexLess(entities[i].entityId, entities[j].entityId)
      || (entities[i].entityId == entities[j].entityId && KindBefore(entities[i].kind, entities[j].kind))
  }

  ghost predicate RemovalsInOrder(removed: seq<Removal>) {
    forall i, j | 0 <= i < j < |removed| ::
      || LexLess(removed[i].entityId, removed[j].entityId)
      || (removed[i].entityId == removed[j].entityId && KindBefore(removed[i].kind, removed[j].kind))
  }

  lemma EntitiesOrderIs(entities: seq<Entity>)
    ensures Ascending(KeyLess, Keys(entities)) <==> EntitiesInOrder(entities)
  {
    KeyLessIsStrictOrder();
    AscendingPairs(KeyLess, Keys(entities));
    hide StrictOrder, Ascending, LexLess;
    forall i, j | 0 <= i < j < |entities|
      ensures KeyLess(Keys(entities)[i], Keys(entities)[j]) <==>
          || LexLess(entities[i].entityId, entities[j].entityId)
          || (entities[i].entityId == entities[j].entityId && KindBefore(entities[i].kind, entities[j].kind))
    {}
  }

  lemma RemovalsOrderIs(removed: seq<Removal>)
    ensures Ascending(KeyLess, RemovalKeys(removed)) <==> RemovalsInOrder(removed)
  {
    KeyLessIsStrictOrder();
    AscendingPairs(KeyLess, RemovalKeys(removed));
    hide StrictOrder, Ascending, LexLess;
    forall i, j | 0 <= i < j < |removed|
      ensures KeyLess(RemovalKeys(removed)[i], RemovalKeys(removed)[j]) <==>
          || LexLess(removed[i].entityId, removed[j].entityId)
          || (removed[i].entityId == removed[j].entityId && KindBefore(removed[i].kind, removed[j].kind))
    {}
  }

  ghost predicate BlocksInOrder(blocks: seq<PublicBlock>) {
    forall i, j | 0 <= i < j < |blocks| :: LexLess(blocks[i].blockId, blocks[j].blockId)
  }

  predicate VoxelsInOrder(voxels: seq<Voxel>) {
    forall i, j | 0 <= i < j < |voxels| ::
      var a, b := voxels[i], voxels[j];
      a.x < b.x || (a.x == b.x && a.y < b.y) || (a.x == b.x && a.y == b.y && a.z < b.z)
  }

  lemma BlocksOrderIs(blocks: seq<PublicBlock>)
    ensures Ascending(LexLess, BlockIds(blocks)) <==> BlocksInOrder(blocks)
  {
    LexIsStrictOrder();
    AscendingPairs(LexLess, BlockIds(blocks));
    hide StrictOrder, Ascending, LexLess;
    forall i, j | 0 <= i < j < |blocks|
      ensures LexLess(BlockIds(blocks)[i], BlockIds(blocks)[j]) <==> LexLess(blocks[i].blockId, blocks[j].blockId)
    {}
  }

  lemma VoxelsOrderIs(voxels: seq<Voxel>)
    ensures Ascending(VoxelLess, VoxelCoordinates(voxels)) <==> VoxelsInOrder(voxels)
  {
    assert StrictOrder(VoxelLess);
    AscendingPairs(VoxelLess, VoxelCoordinates(voxels));
    hide StrictOrder, Ascending;
    forall i, j | 0 <= i < j < |voxels|
      ensures VoxelLess(VoxelCoordinates(voxels)[i], VoxelCoordinates(voxels)[j]) <==>
          var a, b := voxels[i], voxels[j];
          a.x < b.x || (a.x == b.x && a.y < b.y) || (a.x == b.x && a.y == b.y && a.z < b.z)
    {}
  }

  /** Kind and id of the entity are those of the payload it carries. */
  predicate Identified(e: Entity) {
    match e.kind
    case PlayerKind => e.payload.PlayerPayload? && e.payload.player.playerId == e.entityId
    case GridKind => e.payload.GridPayload? && e.payload.grid.gridId == e.entityId
    case VoxelChunkKind => e.payload.VoxelChunkPayload? && e.payload.chunk.chunkId == e.entityId
    case DeathDropKind => e.payload.DeathDropPayload? && e.payload.drop.dropId == e.entityId
  }

  /** The conditions on one entity, in their order. */
  ghost function EntityChecks(e: Entity, limits: Limits, r: Registry): seq<Outcome> {
    [Require(e.componentSchemaVersion == 4, InvalidEntity), Require(Identified(e), InvalidEntity)]
    + (match e.payload
       case PlayerPayload(player) => [Placed(r, player.address)]
       case DeathDropPayload(drop) => [Placed(r, drop.address)]
       case GridPayload(grid) =>
         [Placed(r, grid.address), Require(|grid.blocks| <= limits.maxBlocksPerGrid, ResourceLimit),
          Require(BlocksInOrder(grid.blocks), NonCanonicalOrder)]
       case VoxelChunkPayload(chunk) =>
         [Require(chunk.bodyId in r.bodies, BindingMismatch),
          Require(|chunk.voxels| <= limits.maxVoxelsPerChunk, ResourceLimit),
          Require(VoxelsInOrder(chunk.voxels), NonCanonicalOrder)])
  }

  lemma EntityIs(e: Entity, limits: Limits, r: Registry)
    ensures EntityOutcome(e, limits, r) == First(EntityChecks(e, limits, r))
  {
    hide First, Ascending, BlocksInOrder, VoxelsInOrder, A.ValidIn;
    var head := [Require(e.componentSchemaVersion == 4, InvalidEntity), Require(Identified(e), InvalidEntity)];
    FirstOf2(head[0], head[1]);
    assert PayloadMatches(e) <==> Identified(e);
    match e.payload {
      case PlayerPayload(player) =>
        FirstOf1(Placed(r, player.address));
        FirstAppended(head, [Placed(r, player.address)]);
      case DeathDropPayload(drop) =>
        FirstOf1(Placed(r, drop.address));
        FirstAppended(head, [Placed(r, drop.address)]);
      case GridPayload(grid) =>
        BlocksOrderIs(grid.blocks);
        var rest := [Placed(r, grid.address), Require(|grid.blocks| <= limits.maxBlocksPerGrid, ResourceLimit),
          Require(BlocksInOrder(grid.blocks), NonCanonicalOrder)];
        FirstOf3(rest[0], rest[1], rest[2]);
        FirstAppended(head, rest);
      case VoxelChunkPayload(chunk) =>
        VoxelsOrderIs(chunk.voxels);
        var rest := [Require(chunk.bodyId in r.bodies, BindingMismatch),
          Require(|chunk.voxels| <= limits.maxVoxelsPerChunk, ResourceLimit),
          Require(VoxelsInOrder(chunk.voxels), NonCanonicalOrder)];
        FirstOf3(rest[0], rest[1], rest[2]);
        FirstAppended(head, rest);
    }
  }

  /** The conditions on every entity, entity by entity. */
  ghost function AllEntityChecks(entities: seq<Entity>, limits: Limits, r: Registry): seq<Outcome> {
    if entities == [] then []
    else EntityChecks(entities[0], limits, r) + AllEntityChecks(entities[1..], limits, r)
  }

  ghost function VectorChecks(entities: seq<Entity>, limits: Limits, r: Registry): seq<Outcome> {
    [Require(|entities| <= limits.maxEntities, ResourceLimit), Require(EntitiesInOrder(entities), NonCanonicalOrder)]
    + AllEntityChecks(entities, limits, r)
  }

  lemma {:induction false} EntitiesAre(entities: seq<Entity>, limits: Limits, r: Registry)
    ensures EntitiesOutcome(entities, limits, r) == First(AllEntityChecks(entities, limits, r))
    decreases |entities|
  {
    hide EntityOutcome, EntityChecks;
    if entities != [] {
      EntityIs(entities[0], limits, r);
      EntitiesAre(entities[1..], limits, r);
      FirstAppended(EntityChecks(entities[0], limits, r), AllEntityChecks(entities[1..], limits, r));
    }
  }

  lemma VectorIs(entities: seq<Entity>, limits: Limits, r: Registry)
    ensures VectorOutcome(entities, limits, r) == First(VectorChecks(entities, limits, r))
  {
    EntitiesOrderIs(entities);
    EntitiesAre(entities, limits, r);
    hide EntitiesOutcome, AllEntityChecks, First, EntitiesInOrder, Ascending;
    var head := [Require(|entities| <= limits.maxEntities, ResourceLimit),
      Require(EntitiesInOrder(entities), NonCanonicalOrder)];
    FirstOf2(head[0], head[1]);
    FirstAppended(head, AllEntityChecks(entities, limits, r));
  }

  ghost function RemovalChecks(removed: seq<Removal>, limits: Limits): seq<Outcome> {
    [Require(|removed| <= limits.maxEntities, ResourceLimit), Require(RemovalsInOrder(removed), NonCanonicalOrder)]
  }

  lemma RemovalsAre(removed: seq<Removal>, limits: Limits)
    ensures RemovalsOutcome(removed, limits) == First(RemovalChecks(removed, limits))
  {
    RemovalsOrderIs(removed);
    hide First, RemovalsInOrder, Ascending;
    FirstOf2(Require(|removed| <= limits.maxEntities, ResourceLimit),
      Require(RemovalsInOrder(removed), NonCanonicalOrder));
  }

  // ---- the private overlay ---------------------------------------------------------------

  /** Jobs are counted over all queues. */
  lemma {:induction false} JobsAddUp(a: seq<Queue>, b: seq<Queue>)
    ensures JobCount(a + b) == JobCount(a) + JobCount(b)
    ensures |a| == 1 ==> JobCount(a) == |a[0].jobs|
    decreases |a|
  {
    if a == [] {
      assert a + b == b;
    } else {
      assert (a + b)[1..] == a[1..] + b;
      JobsAddUp(a[1..], b);
      assert |a| == 1 ==> JobCount(a[1..]) == 0;
    }
  }

  ghost predicate TextsInOrder(texts: seq<string>) {
    forall i, j | 0 <= i < j < |texts| :: LexLess(texts[i], texts[j])
  }

  /** Every collection of the overlay is in strict order of its ids. */
  ghost predicate OverlayInOrder(p: ActorPrivate) {
    && (forall i, j | 0 <= i < j < |p.inventories| ::
      LexLess(p.inventories[i].inventoryId, p.inventories[j].inventoryId))
    && (forall i, j | 0 <= i < j < |p.deathDrops| :: LexLess(p.deathDrops[i].dropId, p.deathDrops[j].dropId))
    && (forall i, j | 0 <= i < j < |p.ownedGridMasses| ::
          LexLess(p.ownedGridMasses[i].gridId, p.ownedGridMasses[j].gridId))
    && (forall i, j | 0 <= i < j < |p.productionQueues| ::
          LexLess(p.productionQueues[i].machineBlockId, p.productionQueues[j].machineBlockId))
  }

  lemma TextsOrderIs(texts: seq<string>)
    ensures Ascending(LexLess, texts) <==> TextsInOrder(texts)
  {
    LexIsStrictOrder();
    AscendingPairs(LexLess, texts);
    hide StrictOrder, Ascending, LexLess;
  }

  lemma OverlayOrderIs(p: ActorPrivate)
    ensures PrivateOrdered(p) <==> OverlayInOrder(p)
  {
    hide Ascending, LexLess;
    TextsOrderIs(InventoryIds(p));
    TextsOrderIs(DropIds(p));
    TextsOrderIs(MassIds(p));
    TextsOrderIs(QueueIds(p));
    InventoryTexts(p);
    DropTexts(p);
    MassTexts(p);
    QueueTexts(p);
    hide TextsInOrder, InventoryIds, DropIds, MassIds, QueueIds;
  }

  lemma InventoryTexts(p: ActorPrivate)
    ensures TextsInOrder(InventoryIds(p)) <==>
        forall i, j | 0 <= i < j < |p.inventories| ::
          LexLess(p.inventories[i].inventoryId, p.inventories[j].inventoryId)
  {
    hide LexLess;
    var texts := InventoryIds(p);
    forall i | 0 <= i < |texts| ensures texts[i] == p.inventories[i].inventoryId {}
    if TextsInOrder(texts) {
      forall i, j | 0 <= i < j < |p.inventories|
        ensures LexLess(p.inventories[i].inventoryId, p.inventories[j].inventoryId)
      {
        assert LexLess(texts[i], texts[j]);
      }
    }
  }

  lemma DropTexts(p: ActorPrivate)
    ensures TextsInOrder(DropIds(p)) <==>
        forall i, j | 0 <= i < j < |p.deathDrops| :: LexLess(p.deathDrops[i].dropId, p.deathDrops[j].dropId)
  {
    hide LexLess;
    var texts := DropIds(p);
    forall i | 0 <= i < |texts| ensures texts[i] == p.deathDrops[i].dropId {}
    if TextsInOrder(texts) {
      forall i, j | 0 <= i < j < |p.deathDrops| ensures LexLess(p.deathDrops[i].dropId, p.deathDrops[j].dropId) {
        assert LexLess(texts[i], texts[j]);
      }
    }
  }

  lemma MassTexts(p: ActorPrivate)
    ensures TextsInOrder(MassIds(p)) <==>
        forall i, j | 0 <= i < j < |p.ownedGridMasses| ::
          LexLess(p.ownedGridMasses[i].gridId, p.ownedGridMasses[j].gridId)
  {
    hide LexLess;
    var texts := MassIds(p);
    forall i | 0 <= i < |texts| ensures texts[i] == p.ownedGridMasses[i].gridId {}
    if TextsInOrder(texts) {
      forall i, j | 0 <= i < j < |p.ownedGridMasses|
        ensures LexLess(p.ownedGridMasses[i].gridId, p.ownedGridMasses[j].gridId)
      {
        assert LexLess(texts[i], texts[j]);
      }
    }
  }

  lemma QueueTexts(p: ActorPrivate)
    ensures TextsInOrder(QueueIds(p)) <==>
        forall i, j | 0 <= i < j < |p.productionQueues| ::
          LexLess(p.productionQueues[i].machineBlockId, p.productionQueues[j].machineBlockId)
  {
    hide LexLess;
    var texts := QueueIds(p);
    forall i | 0 <= i < |texts| ensures texts[i] == p.productionQueues[i].machineBlockId {}
    if TextsInOrder(texts) {
      forall i, j | 0 <= i < j < |p.productionQueues|
        ensures LexLess(p.productionQueues[i].machineBlockId, p.productionQueues[j].machineBlockId)
      {
        assert LexLess(texts[i], texts[j]);
      }
    }
  }

  /** A saturating count against a limit: the largest limit never refuses. */
  predicate Within(count: nat, limit: u64) { count <= limit || limit == U64_MAX }

  ghost function OverlayChecks(p: ActorPrivate, limits: Limits, r: Registry): seq<Outcome> {
    [Placed(r, p.player.address), Require(OptionalKnown(r, p.player.environment), BindingMismatch),
     Require(forall i | 0 <= i < |p.deathDrops| :: A.ValidIn(r.dimensions, p.deathDrops[i].address, r.universeId),
       InvalidAddress)]
    + [Require(Within(|p.inventories| + |p.deathDrops| + |p.ownedGridMasses| + |p.productionQueues|
         + JobCount(p.productionQueues), limits.maxPrivateRecords), ResourceLimit),
       Require(OverlayInOrder(p), NonCanonicalOrder)]
  }

  lemma OverlayIs(p: ActorPrivate, limits: Limits, r: Registry)
    ensures ActorPrivateOutcome(p, limits, r) == First(OverlayChecks(p, limits, r))
  {
    OverlayOrderIs(p);
    OptionalEnvironmentIs(r, p.player.environment);
    hide First, PrivateOrdered, OverlayInOrder, JobCount, OptionalEnvironment, OptionalKnown, A.ValidIn;
    var c := OverlayChecks(p, limits, r);
    FirstOf3(c[0], c[1], c[2]);
    FirstOf2(c[3], c[4]);
    FirstAppended([c[0], c[1], c[2]], [c[3], c[4]]);
    assert c == [c[0], c[1], c[2]] + [c[3], c[4]];
    assert c[2] == Require(forall i | 0 <= i < |p.deathDrops| :: AddressOk(r, p.deathDrops[i].address), InvalidAddress);
  }

  // ---- the operations of a delta ---------------------------------------------------------

  /** No identity is entered, replaced or removed twice, nor by two of the three. */
  ghost predicate NamesOnce(entered: seq<Entity>, replaced: seq<Entity>, removed: seq<Removal>) {
    && (forall i, j | 0 <= i < j < |entered| :: KeyOf(entered[i]) != KeyOf(entered[j]))
    && (forall i, j | 0 <= i < j < |replaced| :: KeyOf(replaced[i]) != KeyOf(replaced[j]))
    && (forall i, j | 0 <= i < j < |removed| :: RemovalKey(removed[i]) != RemovalKey(removed[j]))
    && (forall i, j | 0 <= i < |entered| && 0 <= j < |replaced| :: KeyOf(entered[i]) != KeyOf(replaced[j]))
    && (forall i, j | 0 <= i < |entered| && 0 <= j < |removed| :: KeyOf(entered[i]) != RemovalKey(removed[j]))
    && (forall i, j | 0 <= i < |replaced| && 0 <= j < |removed| :: KeyOf(replaced[i]) != RemovalKey(removed[j]))
  }

  lemma NamesOnceIs(entered: seq<Entity>, replaced: seq<Entity>, removed: seq<Removal>)
    ensures Distinct(Operations(entered, replaced, removed)) <==> NamesOnce(entered, replaced, removed)
  {
    var keys, n, p := Operations(entered, replaced, removed), |entered|, |entered| + |replaced|;
    assert forall i | 0 <= i < n :: keys[i] == KeyOf(entered[i]);
    assert forall i | 0 <= i < |replaced| :: keys[n + i] == KeyOf(replaced[i]);
    assert forall i | 0 <= i < |removed| :: keys[p + i] == RemovalKey(removed[i]);
    assert |keys| == p + |removed|;
    hide Operations;
    if NamesOnce(entered, replaced, removed) {
      forall i, j | 0 <= i < j < |keys| ensures keys[i] != keys[j] {
        var a := if i < n then 0 else if i < p then 1 else 2;
        var b := if j < n then 0 else if j < p then 1 else 2;
        assert a == 1 ==> keys[i] == KeyOf(replaced[i - n]);
        assert a == 2 ==> keys[i] == RemovalKey(removed[i - p]);
        assert b == 1 ==> keys[j] == KeyOf(replaced[j - n]);
        assert b == 2 ==> keys[j] == RemovalKey(removed[j - p]);
      }
    }
  }

  /** Entered identities are not visible, replaced ones are and with a lower revision, removed ones
      are. */
  ghost predicate CarriedOut(current: seq<Entity>, entered: seq<Entity>, replaced: seq<Entity>, removed: seq<Removal>) {
    && (forall i, j | 0 <= i < |entered| && 0 <= j < |current| :: KeyOf(current[j]) != KeyOf(entered[i]))
    && (forall i | 0 <= i < |replaced| :: Outdated(current, replaced[i]))
    && (forall i | 0 <= i < |removed| :: Named(current, RemovalKey(removed[i])))
  }

  ghost predicate Outdated(current: seq<Entity>, replacement: Entity) {
    exists j :: 0 <= j < |current| && KeyOf(current[j]) == KeyOf(replacement)
                && current[j].projectedRevision < replacement.projectedRevision
  }

  lemma CarriedOutIs(current: seq<Entity>, entered: seq<Entity>, replaced: seq<Entity>, removed: seq<Removal>)
    requires Ascending(KeyLess, Keys(current))
    ensures Applicable(ByKey(current), entered, replaced, removed) <==> CarriedOut(current, entered, replaced, removed)
  {
    SortedFinds(current);
    ByKeyNames(current);
    hide Ascending, ByKey, KeyLess, Keys, Listing;
    forall i | 0 <= i < |replaced| ensures Newer(ByKey(current), replaced[i]) <==> Outdated(current, replaced[i]) {
      OutdatedIs(current, replaced[i]);
    }
    hide Newer, Outdated;
  }

  lemma OutdatedIs(current: seq<Entity>, replacement: Entity)
    requires forall k :: k in ByKey(current) <==> Named(current, k)
    requires forall i | 0 <= i < |current| ::
               KeyOf(current[i]) in ByKey(current) && ByKey(current)[KeyOf(current[i])] == current[i]
    ensures Newer(ByKey(current), replacement) <==> Outdated(current, replacement)
  {
    hide ByKey;
    if Newer(ByKey(current), replacement) {
      var j :| 0 <= j < |current| && KeyOf(current[j]) == KeyOf(replacement);
      assert ByKey(current)[KeyOf(current[j])] == current[j];
    }
  }

  /** The size of the resulting vector, whatever the limit. */
  lemma SizeAfter(current: seq<Entity>, entered: seq<Entity>, replaced: seq<Entity>, removed: seq<Removal>)
    requires Ascending(KeyLess, Keys(current)) && Distinct(Operations(entered, replaced, removed))
    requires Applicable(ByKey(current), entered, replaced, removed)
    ensures |Values(Final(current, entered, replaced, removed))| == |current| + |entered| - |removed|
  {
    FinalLists(current, entered, replaced, removed);
    ListingAscends(Values(Final(current, entered, replaced, removed)),
      Algebra(ByKey(current), entered, replaced, removed));
    SortedFinds(current);
    DistinctSizes(entered, replaced, removed);
    ApplicableKeys(ByKey(current), entered, replaced, removed);
    SizeOfUpdate(ByKey(current), ByKey(entered), ByKey(replaced), KeySet(RemovalKeys(removed)));
    hide Operations, Ascending, Listing, ByKey, KeySet, Values, Final, Distinct, Applicable;
  }
}
