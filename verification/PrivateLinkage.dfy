/** The actor's private overlay refers only to what its view shows: the check as it is carried
    out over index maps, and the referential integrity it decides. */
module PrivateLinkage {
  import opened Prelude
  import opened Order
  import opened InterestModel
  import opened EntityDelta

  // ---- index maps ------------------------------------------------------------------------

  /** A map filled in order: the last entry of a name wins. */
  function LastNamed<V>(entries: seq<Option<(string, V)>>): map<string, V> {
    if entries == [] then map[]
    else
      var m := LastNamed(entries[..|entries| - 1]);
      match entries[|entries| - 1]
      case None => m
      case Some(entry) => m[entry.0 := entry.1]
  }

  ghost predicate NamesDistinct<V>(entries: seq<Option<(string, V)>>) {
    forall i, j | 0 <= i < j < |entries| && entries[i].Some? && entries[j].Some? ::
      entries[i].value.0 != entries[j].value.0
  }

  ghost predicate HasName<V>(entries: seq<Option<(string, V)>>, name: string) {
    exists i :: 0 <= i < |entries| && entries[i].Some? && entries[i].value.0 == name
  }

  lemma {:induction false} LastNamedFinds<V>(entries: seq<Option<(string, V)>>)
    requires NamesDistinct(entries)
    ensures forall k :: k in LastNamed(entries) <==> HasName(entries, k)
    ensures forall i | 0 <= i < |entries| && entries[i].Some? ::
              entries[i].value.0 in LastNamed(entries) && LastNamed(entries)[entries[i].value.0] == entries[i].value.1
  {
    if entries != [] {
      var n := |entries| - 1;
      LastNamedFinds(entries[..n]);
      forall k ensures HasName(entries, k)
        <==> HasName(entries[..n], k) || (entries[n].Some? && entries[n].value.0 == k) {
        if HasName(entries[..n], k) {
          var i :| 0 <= i < n && entries[..n][i].Some? && entries[..n][i].value.0 == k;
          assert entries[i].value.0 == k;
        }
      }
      forall i | 0 <= i < n && entries[i].Some?
        ensures entries[i].value.0 in LastNamed(entries) && LastNamed(entries)[entries[i].value.0] == entries[i].value.1
      {
        assert entries[..n][i] == entries[i];
      }
    }
  }

  lemma LastNamedPrefix<V>(entries: seq<Option<(string, V)>>, i: nat)
    requires i < |entries|
    ensures LastNamed(entries[..i + 1])
            == if entries[i].Some? then LastNamed(entries[..i])[entries[i].value.0 := entries[i].value.1]
              else LastNamed(entries[..i])
  {
    assert entries[..i + 1][..i] == entries[..i];
  }

  function PlayerEntry(e: Entity): Option<(string, PublicPlayer)> {
    if e.payload.PlayerPayload? then Some((e.payload.player.playerId, e.payload.player)) else None
  }

  function GridEntry(e: Entity): Option<(string, PublicGrid)> {
    if e.payload.GridPayload? then Some((e.payload.grid.gridId, e.payload.grid)) else None
  }

  function DropEntry(e: Entity): Option<(string, PublicDeathDrop)> {
    if e.payload.DeathDropPayload? then Some((e.payload.drop.dropId, e.payload.drop)) else None
  }

  function Players(entities: seq<Entity>): (entries: seq<Option<(string, PublicPlayer)>>)
    ensures |entries| == |entities| && forall i | 0 <= i < |entities| :: entries[i] == PlayerEntry(entities[i])
  {
    seq(|entities|, i requires 0 <= i < |entities| => PlayerEntry(entities[i]))
  }

  function Grids(entities: seq<Entity>): (entries: seq<Option<(string, PublicGrid)>>)
    ensures |entries| == |entities| && forall i | 0 <= i < |entities| :: entries[i] == GridEntry(entities[i])
  {
    seq(|entities|, i requires 0 <= i < |entities| => GridEntry(entities[i]))
  }

  function Drops(entities: seq<Entity>): (entries: seq<Option<(string, PublicDeathDrop)>>)
    ensures |entries| == |entities| && forall i | 0 <= i < |entities| :: entries[i] == DropEntry(entities[i])
  {
    seq(|entities|, i requires 0 <= i < |entities| => DropEntry(entities[i]))
  }

  function InventoryEntries(inventories: seq<Inventory>): (entries: seq<Option<(string, Inventory)>>)
    ensures |entries| == |inventories|
    ensures forall i | 0 <= i < |inventories| :: entries[i] == Some((inventories[i].inventoryId, inventories[i]))
  {
    seq(|inventories|, i requires 0 <= i < |inventories| => Some((inventories[i].inventoryId, inventories[i])))
  }

  function Inventories(private: ActorPrivate): map<string, Inventory> {
    LastNamed(InventoryEntries(private.inventories))
  }

  // ---- the blocks of every grid ----------------------------------------------------------

  datatype BlockLink = BlockLink(grid: PublicGrid, block: PublicBlock)

  type Blocks = map<string, seq<BlockLink>>

  function BlocksOf(e: Entity): seq<PublicBlock> {
    if e.payload.GridPayload? then e.payload.grid.blocks else []
  }

  predicate Place(entities: seq<Entity>, e: nat, b: nat) {
    e < |entities| && b < |BlocksOf(entities[e])|
  }

  function LinkAt(entities: seq<Entity>, e: nat, b: nat): BlockLink
    requires Place(entities, e, b)
  {
    BlockLink(entities[e].payload.grid, BlocksOf(entities[e])[b])
  }

  function LinksNamed(blocks: Blocks, blockId: string): seq<BlockLink> {
    if blockId in blocks then blocks[blockId] else []
  }

  function WithLink(blocks: Blocks, link: BlockLink): Blocks {
    blocks[link.block.blockId := LinksNamed(blocks, link.block.blockId) + [link]]
  }

  predicate Cursor(entities: seq<Entity>, n: nat, k: nat) {
    n <= |entities| && k <= (if n < |entities| then |BlocksOf(entities[n])| else 0)
  }

  /** The blocks of the first `n` entities and the first `k` blocks of the next one. */
  function BlockIndex(entities: seq<Entity>, n: nat, k: nat): Blocks
    requires Cursor(entities, n, k)
    decreases n, k
  {
    if k > 0 then WithLink(BlockIndex(entities, n, k - 1), LinkAt(entities, n, k - 1))
    else if n == 0 then map[]
    else BlockIndex(entities, n - 1, |BlocksOf(entities[n - 1])|)
  }

  datatype LinkIndex = LinkIndex(
    players: map<string, PublicPlayer>, grids: map<string, PublicGrid>, drops: map<string, PublicDeathDrop>,
      blocks: Blocks)

  function PublicIndex(entities: seq<Entity>): LinkIndex {
    LinkIndex(LastNamed(Players(entities)), LastNamed(Grids(entities)),
              LastNamed(Drops(entities)), BlockIndex(entities, |entities|, 0))
  }

  method BuildPublicLinkIndex(entities: seq<Entity>) returns (index: LinkIndex)
    ensures index == PublicIndex(entities)
  {
    hide LastNamed;
    ghost var players, grids, drops :=
      Players(entities), Grids(entities), Drops(entities);
    index := LinkIndex(map[], map[], map[], map[]);
    NothingNamed<PublicPlayer>();
    NothingNamed<PublicGrid>();
    NothingNamed<PublicDeathDrop>();
    for n := 0 to |entities|
      invariant index.players == LastNamed(players[..n])
      invariant index.grids == LastNamed(grids[..n])
      invariant index.drops == LastNamed(drops[..n])
      invariant index.blocks == BlockIndex(entities, n, 0)
    {
      LastNamedPrefix(players, n);
      LastNamedPrefix(grids, n);
      LastNamedPrefix(drops, n);
      match entities[n].payload {
        case PlayerPayload(player) => index := index.(players := index.players[player.playerId := player]);
        case GridPayload(grid) =>
          index := index.(grids := index.grids[grid.gridId := grid]);
          var blocks := index.blocks;
          for k := 0 to |grid.blocks|
            invariant blocks == BlockIndex(entities, n, k)
          {
            blocks := WithLink(blocks, BlockLink(grid, grid.blocks[k]));
          }
          index := index.(blocks := blocks);
        case DeathDropPayload(drop) => index := index.(drops := index.drops[drop.dropId := drop]);
        case VoxelChunkPayload(_) =>
      }
      assert BlockIndex(entities, n + 1, 0) == BlockIndex(entities, n, |BlocksOf(entities[n])|);
    }
    assert players[..|entities|] == players && grids[..|entities|] == grids && drops[..|entities|] == drops;
  }

  lemma NothingNamed<V>()
    ensures forall entries: seq<Option<(string, V)>> :: LastNamed(entries[..0]) == map[]
  {}

  // ---- the check -------------------------------------------------------------------------

  /** `require_unique_public_block`. */
  function UniqueBlock(index: LinkIndex, blockId: string): Option<BlockLink> {
    if |LinksNamed(index.blocks, blockId)| == 1 then Some(LinksNamed(index.blocks, blockId)[0]) else None
  }

  predicate OwnedBlock(index: LinkIndex, actor: string, blockId: string, kinds: set<BlockKind>) {
    var link := UniqueBlock(index, blockId);
    link.Some? && link.value.grid.ownerPlayerId == actor && link.value.block.kind in kinds
  }

  predicate InventoryLinks(index: LinkIndex, actor: string, private: ActorPrivate, inventory: Inventory) {
    match inventory.domain
    case PlayerDomain(playerId) => playerId == actor && inventory.inventoryId == private.player.inventoryId
    case CargoDomain(blockId) => OwnedBlock(index, actor, blockId, {Cargo})
    case DroppedDomain(_, owner) => owner == actor
  }

  function CargoBlocks(inventories: seq<Inventory>): set<string> {
    set i | 0 <= i < |inventories| && inventories[i].domain.CargoDomain? :: inventories[i].domain.blockId
  }

  predicate CargoDistinct(inventories: seq<Inventory>) {
    forall i, j | 0 <= i < j < |inventories| && inventories[i].domain.CargoDomain?
      && inventories[j].domain.CargoDomain? ::
      inventories[i].domain.blockId != inventories[j].domain.blockId
  }

  function CarriedCount(inventories: seq<Inventory>): nat {
    if inventories == [] then 0
    else
      var n := |inventories| - 1;
      CarriedCount(inventories[..n]) + (if inventories[n].domain.PlayerDomain? then 1 else 0)
  }

  function DroppedIds(inventories: seq<Inventory>): set<string> {
    set i | 0 <= i < |inventories| && inventories[i].domain.DroppedDomain? :: inventories[i].inventoryId
  }

  predicate OwnedDrop(inventories: map<string, Inventory>, actor: string, inventoryId: string) {
    && inventoryId in inventories
    && inventories[inventoryId].domain.DroppedDomain?
    && inventories[inventoryId].domain.ownerPlayerId == actor
  }

  predicate DropLinks(index: LinkIndex, inventories: map<string, Inventory>, actor: string, drop: DeathDrop) {
    && drop.ownerPlayerId == actor
    && drop.dropId in index.drops && index.drops[drop.dropId].address == drop.address
    && OwnedDrop(inventories, actor, drop.inventoryId)
  }

  function DropInventories(drops: seq<DeathDrop>): set<string> {
    set i | 0 <= i < |drops| :: drops[i].inventoryId
  }

  predicate DropsDistinct(drops: seq<DeathDrop>) {
    forall i, j | 0 <= i < j < |drops| :: drops[i].inventoryId != drops[j].inventoryId
  }

  predicate MassLinks(index: LinkIndex, actor: string, mass: GridMass) {
    mass.gridId in index.grids && index.grids[mass.gridId].ownerPlayerId == actor
  }

  predicate RecipeMatches(recipe: Recipe, machine: BlockKind) {
    (recipe.Refining? && machine.Refinery?) || (recipe.Component? && machine.Assembler?)
  }

  predicate JobsDistinct(jobs: seq<Job>) {
    forall i, j | 0 <= i < j < |jobs| :: jobs[i].jobId != jobs[j].jobId
  }

  predicate JobLinks(inventories: set<string>, actor: string, queue: Queue, machine: BlockKind, job: Job) {
    && job.ownerPlayerId == actor
    && job.machineBlockId == queue.machineBlockId
    && RecipeMatches(job.recipe, machine)
    && job.sourceInventoryId in inventories
    && job.destinationInventoryId in inventories
  }

  predicate QueueLinks(index: LinkIndex, inventories: set<string>, actor: string, queue: Queue) {
    && OwnedBlock(index, actor, queue.machineBlockId, {Refinery, Assembler})
    && JobsDistinct(queue.jobs)
    && forall i | 0 <= i < |queue.jobs| ::
         JobLinks(inventories, actor, queue, UniqueBlock(index, queue.machineBlockId).value.block.kind, queue.jobs[i])
  }

  /** What `validate_private_linkage` accepts for a bound player. */
  predicate Links(actor: string, private: ActorPrivate, entities: seq<Entity>) {
    var index, inventories := PublicIndex(entities), Inventories(private);
    && private.player.playerId == actor
    && actor in index.players && index.players[actor].address == private.player.address
    && (forall i | 0 <= i < |private.inventories| :: InventoryLinks(index, actor, private, private.inventories[i]))
    && CargoDistinct(private.inventories)
    && CarriedCount(private.inventories) == 1 && private.player.inventoryId in inventories
    && (forall i | 0 <= i < |private.deathDrops| :: DropLinks(index, inventories, actor, private.deathDrops[i]))
    && DropsDistinct(private.deathDrops)
    && DroppedIds(private.inventories) == DropInventories(private.deathDrops)
    && (forall i | 0 <= i < |private.ownedGridMasses| :: MassLinks(index, actor, private.ownedGridMasses[i]))
    && (forall i | 0 <= i < |private.productionQueues| ::
      QueueLinks(index, inventories.Keys, actor, private.productionQueues[i]))
  }

  function LinkageOutcome(role: Role, private: Option<ActorPrivate>, entities: seq<Entity>): Outcome {
    match (role, private)
    case (Player(actor), Some(overlay)) => Require(Links(actor, overlay, entities), InvalidPrivateLinkage)
    case (Player(_), None) => Fail(InvalidPrivateLinkage)
    case (Spectator, None) => Pass
    case (Spectator, Some(_)) => Fail(InvalidPrivateLinkage)
  }

  lemma OneMoreInventory(inventories: seq<Inventory>, i: nat)
    requires i < |inventories|
    ensures var (before, after, domain) := (inventories[..i], inventories[..i + 1], inventories[i].domain);
            && CargoBlocks(after) == CargoBlocks(before) + (if domain.CargoDomain? then {domain.blockId} else {})
            && CarriedCount(after) == CarriedCount(before) + (if domain.PlayerDomain? then 1 else 0)
            && DroppedIds(after)
              == DroppedIds(before) + (if domain.DroppedDomain? then {inventories[i].inventoryId} else {})
            && (CargoDistinct(after)
              <==> CargoDistinct(before) && (domain.CargoDomain? ==> domain.blockId !in CargoBlocks(before)))
  {
    assert inventories[..i + 1] == inventories[..i] + [inventories[i]];
  }

  lemma CargoRepeated(inventories: seq<Inventory>, i: nat)
    requires i <= |inventories| && CargoDistinct(inventories)
    ensures CargoDistinct(inventories[..i])
  {}

  method CheckInventories(index: LinkIndex, actor: string, private: ActorPrivate)
    returns (ok: bool, carried: nat, dropped: set<string>)
    ensures ok == ((forall i | 0 <= i < |private.inventories| ::
        InventoryLinks(index, actor, private, private.inventories[i]))
                   && CargoDistinct(private.inventories))
    ensures ok ==> carried == CarriedCount(private.inventories) && dropped == DroppedIds(private.inventories)
  {
    hide CargoBlocks, CarriedCount, DroppedIds, OwnedBlock;
    var cargo: set<string> := {};
    carried, dropped := 0, {};
    NoInventories(private.inventories);
    hide CargoDistinct;
    for i := 0 to |private.inventories|
      invariant forall j | 0 <= j < i :: InventoryLinks(index, actor, private, private.inventories[j])
      invariant CargoDistinct(private.inventories[..i])
      invariant cargo == CargoBlocks(private.inventories[..i])
      invariant carried == CarriedCount(private.inventories[..i])
      invariant dropped == DroppedIds(private.inventories[..i])
    {
      var inventory := private.inventories[i];
      OneMoreInventory(private.inventories, i);
      match inventory.domain {
        case PlayerDomain(playerId) =>
          if playerId != actor || inventory.inventoryId != private.player.inventoryId {
            return false, carried, dropped;
          }
          carried := carried + 1;
        case CargoDomain(blockId) =>
          if blockId in cargo {
            if CargoDistinct(private.inventories) { CargoRepeated(private.inventories, i + 1); }
            return false, carried, dropped;
          }
          cargo := cargo + {blockId};
          if !OwnedBlock(index, actor, blockId, {Cargo}) { return false, carried, dropped; }
        case DroppedDomain(_, owner) =>
          if owner != actor { return false, carried, dropped; }
          dropped := dropped + {inventory.inventoryId};
      }
    }
    assert private.inventories[..|private.inventories|] == private.inventories;
    ok := true;
  }

  lemma NoInventories(inventories: seq<Inventory>)
    ensures CargoBlocks(inventories[..0]) == {} && CarriedCount(inventories[..0]) == 0
        && DroppedIds(inventories[..0]) == {}
  {}

  method CheckDrops(index: LinkIndex, inventories: map<string, Inventory>, actor: string, drops: seq<DeathDrop>)
    returns (ok: bool, linked: set<string>)
    ensures ok == ((forall i | 0 <= i < |drops| :: DropLinks(index, inventories, actor, drops[i]))
        && DropsDistinct(drops))
    ensures ok ==> linked == DropInventories(drops)
  {
    linked := {};
    for i := 0 to |drops|
      invariant forall j | 0 <= j < i :: DropLinks(index, inventories, actor, drops[j])
      invariant DropsDistinct(drops[..i])
      invariant linked == DropInventories(drops[..i])
    {
      assert drops[..i + 1] == drops[..i] + [drops[i]];
      if !DropLinks(index, inventories, actor, drops[i]) { return false, linked; }
      if drops[i].inventoryId in linked {
        var j :| 0 <= j < i && drops[..i][j].inventoryId == drops[i].inventoryId;
        assert drops[j].inventoryId == drops[i].inventoryId;
        return false, linked;
      }
      linked := linked + {drops[i].inventoryId};
    }
    assert drops[..|drops|] == drops;
    ok := true;
  }

  method CheckQueue(index: LinkIndex, inventories: set<string>, actor: string, queue: Queue) returns (ok: bool)
    ensures ok == QueueLinks(index, inventories, actor, queue)
  {
    var machine := UniqueBlock(index, queue.machineBlockId);
    if !OwnedBlock(index, actor, queue.machineBlockId, {Refinery, Assembler}) { return false; }
    var ids: set<string> := {};
    for i := 0 to |queue.jobs|
      invariant forall j | 0 <= j < i :: JobLinks(inventories, actor, queue, machine.value.block.kind, queue.jobs[j])
      invariant JobsDistinct(queue.jobs[..i])
      invariant ids == set j | 0 <= j < i :: queue.jobs[j].jobId
    {
      if queue.jobs[i].jobId in ids { return false; }
      ids := ids + {queue.jobs[i].jobId};
      if !JobLinks(inventories, actor, queue, machine.value.block.kind, queue.jobs[i]) { return false; }
      assert queue.jobs[..i + 1] == queue.jobs[..i] + [queue.jobs[i]];
    }
    assert queue.jobs[..|queue.jobs|] == queue.jobs;
    ok := true;
  }

  method ValidatePrivateLinkage(role: Role, private: Option<ActorPrivate>, entities: seq<Entity>) returns (r: Outcome)
    ensures r == LinkageOutcome(role, private, entities)
  {
    hide InventoryLinks, CargoDistinct, DropLinks, DropsDistinct, QueueLinks, MassLinks, CarriedCount, DroppedIds,
        DropInventories,
         PublicIndex, LastNamed;
    if role.Spectator? || private.None? {
      return Require(role.Spectator? && private.None?, InvalidPrivateLinkage);
    }
    var actor, overlay := role.playerId, private.value;
    if overlay.player.playerId != actor { return Fail(InvalidPrivateLinkage); }
    var index := BuildPublicLinkIndex(entities);
    if actor !in index.players { return Fail(InvalidPrivateLinkage); }
    if index.players[actor].address != overlay.player.address { return Fail(InvalidPrivateLinkage); }
    var inventories := Inventories(overlay);
    var ok, carried, dropped := CheckInventories(index, actor, overlay);
    if !ok { return Fail(InvalidPrivateLinkage); }
    if carried != 1 || overlay.player.inventoryId !in inventories { return Fail(InvalidPrivateLinkage); }
    var linked;
    ok, linked := CheckDrops(index, inventories, actor, overlay.deathDrops);
    if !ok || dropped != linked { return Fail(InvalidPrivateLinkage); }
    for i := 0 to |overlay.ownedGridMasses|
      invariant forall j | 0 <= j < i :: MassLinks(index, actor, overlay.ownedGridMasses[j])
    {
      if !MassLinks(index, actor, overlay.ownedGridMasses[i]) { return Fail(InvalidPrivateLinkage); }
    }
    for i := 0 to |overlay.productionQueues|
      invariant forall j | 0 <= j < i :: QueueLinks(index, inventories.Keys, actor, overlay.productionQueues[j])
    {
      ok := CheckQueue(index, inventories.Keys, actor, overlay.productionQueues[i]);
      if !ok { return Fail(InvalidPrivateLinkage); }
    }
    r := Pass;
  }

  // ---- referential integrity -------------------------------------------------------------

  /** The entity vector as `validate_entity_vector` leaves it: strictly ordered, payloads matching. */
  ghost predicate EntitiesOrdered(entities: seq<Entity>) {
    && Ascending(KeyLess, Keys(entities))
    && forall i | 0 <= i < |entities| :: PayloadMatches(entities[i])
  }

  function InventoryIds(private: ActorPrivate): seq<string> {
    seq(|private.inventories|, i requires 0 <= i < |private.inventories| => private.inventories[i].inventoryId)
  }

  function DropIds(private: ActorPrivate): seq<string> {
    seq(|private.deathDrops|, i requires 0 <= i < |private.deathDrops| => private.deathDrops[i].dropId)
  }

  function MassIds(private: ActorPrivate): seq<string> {
    seq(|private.ownedGridMasses|, i requires 0 <= i < |private.ownedGridMasses| => private.ownedGridMasses[i].gridId)
  }

  function QueueIds(private: ActorPrivate): seq<string> {
    seq(|private.productionQueues|, i requires 0 <= i < |private.productionQueues| =>
      private.productionQueues[i].machineBlockId)
  }

  predicate PrivateOrdered(private: ActorPrivate) {
    && Ascending(LexLess, InventoryIds(private))
    && Ascending(LexLess, DropIds(private))
    && Ascending(LexLess, MassIds(private))
    && Ascending(LexLess, QueueIds(private))
  }

  ghost predicate PlayerVisible(entities: seq<Entity>, actor: string, player: PrivatePlayer) {
    exists i :: 0 <= i < |entities| && entities[i].payload.PlayerPayload?
                && entities[i].payload.player.playerId == actor && entities[i].payload.player.address == player.address
  }

  ghost predicate DropVisible(entities: seq<Entity>, drop: DeathDrop) {
    exists i :: 0 <= i < |entities| && entities[i].payload.DeathDropPayload?
                && entities[i].payload.drop.dropId == drop.dropId && entities[i].payload.drop.address == drop.address
  }

  ghost predicate GridOwned(entities: seq<Entity>, actor: string, gridId: string) {
    exists i :: 0 <= i < |entities| && entities[i].payload.GridPayload?
                && entities[i].payload.grid.gridId == gridId && entities[i].payload.grid.ownerPlayerId == actor
  }

  /** The block is visible in exactly one place, on a grid of the actor, and of the right kind. */
  ghost predicate BlockResolves(entities: seq<Entity>, actor: string, blockId: string, kinds: set<BlockKind>) {
    exists e: nat, b: nat :: Place(entities, e, b) && OnlyPlace(entities, e, b, blockId)
                             && LinkAt(entities, e, b).grid.ownerPlayerId == actor
                               && LinkAt(entities, e, b).block.kind in kinds
  }

  ghost predicate OnlyPlace(entities: seq<Entity>, e: nat, b: nat, blockId: string)
    requires Place(entities, e, b)
  {
    && LinkAt(entities, e, b).block.blockId == blockId
    && forall f: nat, c: nat | Place(entities, f, c) && LinkAt(entities, f, c).block.blockId == blockId ::
         f == e && c == b
  }

  ghost predicate OneCarried(private: ActorPrivate, actor: string) {
    exists i :: 0 <= i < |private.inventories|
      && private.inventories[i].domain == PlayerDomain(actor)
        && private.inventories[i].inventoryId == private.player.inventoryId
      && forall j | 0 <= j < |private.inventories| && private.inventories[j].domain.PlayerDomain? :: j == i
  }

  ghost predicate CargoResolves(private: ActorPrivate, actor: string, entities: seq<Entity>) {
    forall i | 0 <= i < |private.inventories| && private.inventories[i].domain.CargoDomain? ::
      BlockResolves(entities, actor, private.inventories[i].domain.blockId, {Cargo})
  }

  ghost predicate DroppedOwned(private: ActorPrivate, actor: string, inventoryId: string) {
    exists i :: 0 <= i < |private.inventories| && private.inventories[i].inventoryId == inventoryId
                && private.inventories[i].domain.DroppedDomain? && private.inventories[i].domain.ownerPlayerId == actor
  }

  ghost predicate HasDeathDrop(private: ActorPrivate, inventoryId: string) {
    exists i :: 0 <= i < |private.deathDrops| && private.deathDrops[i].inventoryId == inventoryId
  }

  /** Death drops and dropped inventories correspond one to one, and every drop is visible. */
  ghost predicate DropsCorrespond(private: ActorPrivate, actor: string, entities: seq<Entity>) {
    && (forall i | 0 <= i < |private.deathDrops| ::
          && private.deathDrops[i].ownerPlayerId == actor
          && DropVisible(entities, private.deathDrops[i])
          && DroppedOwned(private, actor, private.deathDrops[i].inventoryId))
    && DropsDistinct(private.deathDrops)
    && (forall i | 0 <= i < |private.inventories| && private.inventories[i].domain.DroppedDomain? ::
          private.inventories[i].domain.ownerPlayerId == actor
            && HasDeathDrop(private, private.inventories[i].inventoryId))
  }

  ghost predicate HasInventory(private: ActorPrivate, inventoryId: string) {
    exists i :: 0 <= i < |private.inventories| && private.inventories[i].inventoryId == inventoryId
  }

  /** Every job belongs to its queue, runs on a machine of its own kind and names held inventories. */
  ghost predicate QueueResolves(private: ActorPrivate, actor: string, entities: seq<Entity>, queue: Queue) {
    && BlockResolves(entities, actor, queue.machineBlockId, {Refinery, Assembler})
    && JobsDistinct(queue.jobs)
    && forall i | 0 <= i < |queue.jobs| ::
         var job := queue.jobs[i];
         && job.ownerPlayerId == actor && job.machineBlockId == queue.machineBlockId
         && BlockResolves(entities, actor, queue.machineBlockId, {if job.recipe.Refining? then Refinery else Assembler})
         && HasInventory(private, job.sourceInventoryId) && HasInventory(private, job.destinationInventoryId)
  }

  ghost predicate ReferentialIntegrity(actor: string, private: ActorPrivate, entities: seq<Entity>) {
    && private.player.playerId == actor
    && PlayerVisible(entities, actor, private.player)
    && OneCarried(private, actor)
    && CargoResolves(private, actor, entities) && CargoDistinct(private.inventories)
    && DropsCorrespond(private, actor, entities)
    && (forall i | 0 <= i < |private.ownedGridMasses| :: GridOwned(entities, actor, private.ownedGridMasses[i].gridId))
    && (forall i | 0 <= i < |private.productionQueues| ::
      QueueResolves(private, actor, entities, private.productionQueues[i]))
  }

  // ---- the index maps find what is there -------------------------------------------------

  /** What the index knows of a block: absent, at one place, or at more than one. */
  ghost predicate Indexed(entities: seq<Entity>, n: nat, k: nat, blockId: string)
    requires Cursor(entities, n, k)
  {
    var links := LinksNamed(BlockIndex(entities, n, k), blockId);
    && (links == [] ==>
      forall f: nat, c: nat | Earlier(entities, n, k, f, c) :: LinkAt(entities, f, c).block.blockId != blockId)
    && (|links| == 1 ==>
      exists e: nat, b: nat :: Earlier(entities, n, k, e, b) && OnlyEarlier(entities, n, k, e, b, blockId)
                                                 && LinkAt(entities, e, b) == links[0])
    && (|links| > 1 ==> exists e: nat, b: nat, f: nat, c: nat ::
          Earlier(entities, n, k, e, b) && Earlier(entities, n, k, f, c) && (e != f || b != c)
          && LinkAt(entities, e, b).block.blockId == blockId && LinkAt(entities, f, c).block.blockId == blockId)
  }

  lemma SameBlockAgain(entities: seq<Entity>, n: nat, k: nat, blockId: string)
    requires Cursor(entities, n, k) && k > 0 && Indexed(entities, n, k - 1, blockId)
    requires LinkAt(entities, n, k - 1).block.blockId == blockId
    ensures Indexed(entities, n, k, blockId)
  {
    var before := LinksNamed(BlockIndex(entities, n, k - 1), blockId);
    assert LinksNamed(BlockIndex(entities, n, k), blockId) == before + [LinkAt(entities, n, k - 1)];
    hide BlockIndex, LinksNamed;
    assert Earlier(entities, n, k, n, k - 1);
    if before == [] {
      assert OnlyEarlier(entities, n, k, n, k - 1, blockId);
    } else {
      var e: nat, b: nat :| Earlier(entities, n, k - 1, e, b) && LinkAt(entities, e, b).block.blockId == blockId;
      assert Earlier(entities, n, k, e, b) && (e != n || b != k - 1);
    }
  }

  /** The two cursors have passed the same places of the block. */
  ghost predicate SamePlaces(entities: seq<Entity>, n: nat, k: nat, m: nat, l: nat, blockId: string) {
    && (forall f: nat, c: nat | Earlier(entities, m, l, f, c) :: Earlier(entities, n, k, f, c))
    && (forall f: nat, c: nat | Earlier(entities, n, k, f, c) && LinkAt(entities, f, c).block.blockId == blockId ::
          Earlier(entities, m, l, f, c))
  }

  /** A cursor move that adds no place of the block leaves what is known of it. */
  lemma OtherBlock(entities: seq<Entity>, n: nat, k: nat, m: nat, l: nat, blockId: string)
    requires Cursor(entities, n, k) && Cursor(entities, m, l) && Indexed(entities, m, l, blockId)
    requires LinksNamed(BlockIndex(entities, n, k), blockId) == LinksNamed(BlockIndex(entities, m, l), blockId)
    requires SamePlaces(entities, n, k, m, l, blockId)
    ensures Indexed(entities, n, k, blockId)
  {
    var links := LinksNamed(BlockIndex(entities, n, k), blockId);
    hide BlockIndex, LinksNamed, Earlier;
    if |links| == 1 {
      var e: nat, b: nat :| Earlier(entities, m, l, e, b) && OnlyEarlier(entities, m, l, e, b, blockId)
                            && LinkAt(entities, e, b) == links[0];
      assert OnlyEarlier(entities, n, k, e, b, blockId);
    }
  }

  /** The next block of the same grid, when it has another id. */
  lemma NextBlockOther(entities: seq<Entity>, n: nat, k: nat, blockId: string)
    requires Cursor(entities, n, k) && k > 0 && LinkAt(entities, n, k - 1).block.blockId != blockId
    ensures LinksNamed(BlockIndex(entities, n, k), blockId) == LinksNamed(BlockIndex(entities, n, k - 1), blockId)
    ensures SamePlaces(entities, n, k, n, k - 1, blockId)
  {
    assert BlockIndex(entities, n, k) == WithLink(BlockIndex(entities, n, k - 1), LinkAt(entities, n, k - 1));
    hide BlockIndex;
  }

  /** The next entity, before any of its blocks. */
  lemma NextEntityOther(entities: seq<Entity>, n: nat, blockId: string)
    requires n > 0 && Cursor(entities, n, 0)
    ensures BlockIndex(entities, n, 0) == BlockIndex(entities, n - 1, |BlocksOf(entities[n - 1])|)
    ensures SamePlaces(entities, n, 0, n - 1, |BlocksOf(entities[n - 1])|, blockId)
  {
    assert BlockIndex(entities, n, 0) == BlockIndex(entities, n - 1, |BlocksOf(entities[n - 1])|);
    hide BlockIndex;
  }

  lemma {:induction false} BlockIndexPlaces(entities: seq<Entity>, n: nat, k: nat, blockId: string)
    requires Cursor(entities, n, k)
    ensures Indexed(entities, n, k, blockId)
    decreases n, k
  {
    if k > 0 {
      hide Indexed, BlockIndex, LinksNamed, SamePlaces, LinkAt;
      BlockIndexPlaces(entities, n, k - 1, blockId);
      if LinkAt(entities, n, k - 1).block.blockId == blockId {
        SameBlockAgain(entities, n, k, blockId);
      } else {
        NextBlockOther(entities, n, k, blockId);
        OtherBlock(entities, n, k, n, k - 1, blockId);
      }
    } else if n > 0 {
      hide Indexed, BlockIndex, LinksNamed, SamePlaces;
      var last := |BlocksOf(entities[n - 1])|;
      BlockIndexPlaces(entities, n - 1, last, blockId);
      NextEntityOther(entities, n, blockId);
      OtherBlock(entities, n, k, n - 1, last, blockId);
    } else {
      NothingIndexed(entities, blockId);
    }
  }

  lemma NothingIndexed(entities: seq<Entity>, blockId: string)
    requires Cursor(entities, 0, 0)
    ensures Indexed(entities, 0, 0, blockId)
  {
    assert BlockIndex(entities, 0, 0) == map[];
    hide BlockIndex;
  }

  ghost predicate Earlier(entities: seq<Entity>, n: nat, k: nat, e: nat, b: nat) {
    Place(entities, e, b) && (e < n || (e == n && b < k))
  }

  ghost predicate OnlyEarlier(entities: seq<Entity>, n: nat, k: nat, e: nat, b: nat, blockId: string)
    requires Place(entities, e, b)
  {
    && LinkAt(entities, e, b).block.blockId == blockId
    && forall f: nat, c: nat | Earlier(entities, n, k, f, c) && LinkAt(entities, f, c).block.blockId == blockId ::
      f == e && c == b
  }

  /** A block is found by the index exactly when it is visible in one place only. */
  lemma BlocksResolve(entities: seq<Entity>, actor: string, blockId: string, kinds: set<BlockKind>)
    ensures OwnedBlock(PublicIndex(entities), actor, blockId, kinds) <==> BlockResolves(entities, actor, blockId, kinds)
  {
    hide LastNamed, BlockIndex;
    BlockIndexPlaces(entities, |entities|, 0, blockId);
    var links := LinksNamed(BlockIndex(entities, |entities|, 0), blockId);
    assert forall f: nat, c: nat :: Earlier(entities, |entities|, 0, f, c) <==> Place(entities, f, c);
    if |links| == 1 {
      var e: nat, b: nat :| Earlier(entities, |entities|, 0, e, b)
          && OnlyEarlier(entities, |entities|, 0, e, b, blockId)
                            && LinkAt(entities, e, b) == links[0];
      assert OnlyPlace(entities, e, b, blockId);
    }
  }

  lemma EntitiesUnambiguous(entities: seq<Entity>)
    requires EntitiesOrdered(entities)
    ensures NamesDistinct(Players(entities))
    ensures NamesDistinct(Grids(entities))
    ensures NamesDistinct(Drops(entities))
  {
    forall i, j | 0 <= i < j < |entities| ensures KeyOf(entities[i]) != KeyOf(entities[j]) {
      KeyLessIsStrictOrder();
      hide KeyLess, StrictOrder, Ascending;
      AscendingIsSorted(KeyLess, Keys(entities), i, j);
    }
    hide Ascending, KeyLess;
  }

  lemma PlayerLookup(actor: string, player: PrivatePlayer, entities: seq<Entity>)
    requires EntitiesOrdered(entities)
    ensures (actor in PublicIndex(entities).players && PublicIndex(entities).players[actor].address == player.address)
            <==> PlayerVisible(entities, actor, player)
  {
    hide EntitiesOrdered, BlockIndex, LastNamed;
    EntitiesUnambiguous(entities);
    var entries := Players(entities);
    LastNamedFinds(entries);
    if HasName(entries, actor) {
      var i :| 0 <= i < |entries| && entries[i].Some? && entries[i].value.0 == actor;
      assert entities[i].payload.PlayerPayload?;
    }
  }

  lemma DropLookup(drop: DeathDrop, entities: seq<Entity>)
    requires EntitiesOrdered(entities)
    ensures (drop.dropId in PublicIndex(entities).drops
        && PublicIndex(entities).drops[drop.dropId].address == drop.address)
            <==> DropVisible(entities, drop)
  {
    hide EntitiesOrdered, BlockIndex, LastNamed;
    EntitiesUnambiguous(entities);
    var entries := Drops(entities);
    LastNamedFinds(entries);
    if HasName(entries, drop.dropId) {
      var i :| 0 <= i < |entries| && entries[i].Some? && entries[i].value.0 == drop.dropId;
      assert entities[i].payload.DeathDropPayload?;
    }
  }

  lemma MassLookup(actor: string, mass: GridMass, entities: seq<Entity>)
    requires EntitiesOrdered(entities)
    ensures MassLinks(PublicIndex(entities), actor, mass) <==> GridOwned(entities, actor, mass.gridId)
  {
    hide EntitiesOrdered, BlockIndex, LastNamed;
    EntitiesUnambiguous(entities);
    var entries := Grids(entities);
    LastNamedFinds(entries);
    if HasName(entries, mass.gridId) {
      var i :| 0 <= i < |entries| && entries[i].Some? && entries[i].value.0 == mass.gridId;
      assert entities[i].payload.GridPayload?;
    }
  }

  lemma InventoryLookup(private: ActorPrivate, actor: string, inventoryId: string)
    requires Ascending(LexLess, InventoryIds(private))
    ensures inventoryId in Inventories(private) <==> HasInventory(private, inventoryId)
    ensures OwnedDrop(Inventories(private), actor, inventoryId) <==> DroppedOwned(private, actor, inventoryId)
  {
    var entries := InventoryEntries(private.inventories);
    assert NamesDistinct(entries) by {
      forall i, j | 0 <= i < j < |entries| ensures entries[i].value.0 != entries[j].value.0 {
        LexIsStrictOrder();
        hide StrictOrder, Ascending, LexLess;
        AscendingIsSorted(LexLess, InventoryIds(private), i, j);
      }
    }
    hide Ascending, LastNamed;
    LastNamedFinds(entries);
    if HasName(entries, inventoryId) {
      var i :| 0 <= i < |entries| && entries[i].Some? && entries[i].value.0 == inventoryId;
      assert private.inventories[i].inventoryId == inventoryId;
    }
  }

  lemma {:induction false} CarriedOnce(inventories: seq<Inventory>)
    ensures CarriedCount(inventories) == 0
        <==> forall i | 0 <= i < |inventories| :: !inventories[i].domain.PlayerDomain?
    ensures CarriedCount(inventories) == 1 <==> exists i :: 0 <= i < |inventories| && OnlyCarried(inventories, i)
  {
    if inventories != [] {
      var n := |inventories| - 1;
      var init := inventories[..n];
      CarriedOnce(init);
      if inventories[n].domain.PlayerDomain? {
        if CarriedCount(init) == 0 { assert OnlyCarried(inventories, n); }
      } else {
        if i :| 0 <= i < n && OnlyCarried(init, i) { assert OnlyCarried(inventories, i); }
        if i :| 0 <= i < |inventories| && OnlyCarried(inventories, i) { assert OnlyCarried(init, i); }
      }
    }
  }

  ghost predicate OnlyCarried(inventories: seq<Inventory>, i: nat)
    requires i < |inventories|
  {
    && inventories[i].domain.PlayerDomain?
    && forall j | 0 <= j < |inventories| && inventories[j].domain.PlayerDomain? :: j == i
  }

  // ---- the check decides referential integrity -------------------------------------------

  ghost predicate InventoriesLink(actor: string, private: ActorPrivate, entities: seq<Entity>) {
    && (forall i | 0 <= i < |private.inventories| ::
      InventoryLinks(PublicIndex(entities), actor, private, private.inventories[i]))
    && CarriedCount(private.inventories) == 1 && private.player.inventoryId in Inventories(private)
  }

  ghost predicate DroppedMine(private: ActorPrivate, actor: string) {
    forall i | 0 <= i < |private.inventories| && private.inventories[i].domain.DroppedDomain? ::
      private.inventories[i].domain.ownerPlayerId == actor
  }

  lemma InventoriesLinkMeans(actor: string, private: ActorPrivate, entities: seq<Entity>)
    requires PrivateOrdered(private)
    ensures InventoriesLink(actor, private, entities)
            <==> OneCarried(private, actor) && CargoResolves(private, actor, entities) && DroppedMine(private, actor)
  {
    hide PrivateOrdered, InventoriesLink, OneCarried, CargoResolves, DroppedMine;
    if InventoriesLink(actor, private, entities) {
      LinkedInventories(actor, private, entities);
    }
    if OneCarried(private, actor) && CargoResolves(private, actor, entities) && DroppedMine(private, actor) {
      ResolvedInventories(actor, private, entities);
    }
  }

  lemma LinkedInventories(actor: string, private: ActorPrivate, entities: seq<Entity>)
    requires InventoriesLink(actor, private, entities)
    ensures OneCarried(private, actor) && CargoResolves(private, actor, entities) && DroppedMine(private, actor)
  {
    CarriedOnce(private.inventories);
    forall i | 0 <= i < |private.inventories| && private.inventories[i].domain.CargoDomain?
      ensures BlockResolves(entities, actor, private.inventories[i].domain.blockId, {Cargo})
    {
      assert InventoryLinks(PublicIndex(entities), actor, private, private.inventories[i]);
      BlocksResolve(entities, actor, private.inventories[i].domain.blockId, {Cargo});
    }
    hide OwnedBlock, BlockResolves, PublicIndex, CarriedCount, Inventories;
    var i :| 0 <= i < |private.inventories| && OnlyCarried(private.inventories, i);
    assert InventoryLinks(PublicIndex(entities), actor, private, private.inventories[i]);
    forall i | 0 <= i < |private.inventories| && private.inventories[i].domain.DroppedDomain?
      ensures private.inventories[i].domain.ownerPlayerId == actor
    {
      assert InventoryLinks(PublicIndex(entities), actor, private, private.inventories[i]);
    }
  }

  lemma ResolvedInventories(actor: string, private: ActorPrivate, entities: seq<Entity>)
    requires PrivateOrdered(private)
    requires OneCarried(private, actor) && CargoResolves(private, actor, entities) && DroppedMine(private, actor)
    ensures InventoriesLink(actor, private, entities)
  {
    InventoryLookup(private, actor, private.player.inventoryId);
    CarriedOnce(private.inventories);
    forall i | 0 <= i < |private.inventories| && private.inventories[i].domain.CargoDomain?
      ensures OwnedBlock(PublicIndex(entities), actor, private.inventories[i].domain.blockId, {Cargo})
    {
      BlocksResolve(entities, actor, private.inventories[i].domain.blockId, {Cargo});
    }
    hide PrivateOrdered, OwnedBlock, BlockResolves, PublicIndex, CarriedCount, Inventories;
    var i :| 0 <= i < |private.inventories|
      && private.inventories[i].domain == PlayerDomain(actor)
        && private.inventories[i].inventoryId == private.player.inventoryId
      && forall j | 0 <= j < |private.inventories| && private.inventories[j].domain.PlayerDomain? :: j == i;
    assert OnlyCarried(private.inventories, i);
    assert HasInventory(private, private.player.inventoryId);
  }

  ghost predicate DropsLink(actor: string, private: ActorPrivate, entities: seq<Entity>) {
    && (forall i | 0 <= i < |private.deathDrops| ::
          DropLinks(PublicIndex(entities), Inventories(private), actor, private.deathDrops[i]))
    && DropsDistinct(private.deathDrops)
    && DroppedIds(private.inventories) == DropInventories(private.deathDrops)
    && DroppedMine(private, actor)
  }

  lemma DropsLinkMeans(actor: string, private: ActorPrivate, entities: seq<Entity>)
    requires EntitiesOrdered(entities) && PrivateOrdered(private)
    ensures DropsLink(actor, private, entities) <==> DropsCorrespond(private, actor, entities)
  {
    forall i | 0 <= i < |private.deathDrops|
      ensures DropLinks(PublicIndex(entities), Inventories(private), actor, private.deathDrops[i])
              <==> private.deathDrops[i].ownerPlayerId == actor && DropVisible(entities, private.deathDrops[i])
                   && DroppedOwned(private, actor, private.deathDrops[i].inventoryId)
    {
      DropLookup(private.deathDrops[i], entities);
      InventoryLookup(private, actor, private.deathDrops[i].inventoryId);
    }
    hide EntitiesOrdered, PrivateOrdered, DropLinks, DropVisible, PublicIndex, Inventories, DropsDistinct, DroppedOwned;
    if DroppedMine(private, actor) && forall i | 0 <= i < |private.deathDrops| ::
      DroppedOwned(private, actor, private.deathDrops[i].inventoryId) {
      DroppedIdsMean(private, actor);
    }
  }

  lemma DroppedIdsMean(private: ActorPrivate, actor: string)
    requires DroppedMine(private, actor)
    requires forall i | 0 <= i < |private.deathDrops| :: DroppedOwned(private, actor, private.deathDrops[i].inventoryId)
    ensures DroppedIds(private.inventories) == DropInventories(private.deathDrops)
            <==> forall i | 0 <= i < |private.inventories| && private.inventories[i].domain.DroppedDomain? ::
                   HasDeathDrop(private, private.inventories[i].inventoryId)
  {
    assert DropInventories(private.deathDrops) <= DroppedIds(private.inventories) by {
      forall id | id in DropInventories(private.deathDrops) ensures id in DroppedIds(private.inventories) {
        assert DroppedOwned(private, actor, id);
      }
    }
    forall id ensures id in DropInventories(private.deathDrops) <==> HasDeathDrop(private, id) {}
    forall i | 0 <= i < |private.inventories| && private.inventories[i].domain.DroppedDomain?
      ensures private.inventories[i].inventoryId in DroppedIds(private.inventories)
    {}
  }

  lemma QueueLinkMeans(actor: string, private: ActorPrivate, entities: seq<Entity>, queue: Queue)
    requires PrivateOrdered(private)
    ensures QueueLinks(PublicIndex(entities), Inventories(private).Keys, actor, queue)
            <==> QueueResolves(private, actor, entities, queue)
  {
    var index := PublicIndex(entities);
    BlocksResolve(entities, actor, queue.machineBlockId, {Refinery, Assembler});
    BlocksResolve(entities, actor, queue.machineBlockId, {Refinery});
    BlocksResolve(entities, actor, queue.machineBlockId, {Assembler});
    forall i | 0 <= i < |queue.jobs|
      ensures queue.jobs[i].sourceInventoryId in Inventories(private)
          <==> HasInventory(private, queue.jobs[i].sourceInventoryId)
      ensures queue.jobs[i].destinationInventoryId in Inventories(private)
          <==> HasInventory(private, queue.jobs[i].destinationInventoryId)
    {
      InventoryLookup(private, actor, queue.jobs[i].sourceInventoryId);
      InventoryLookup(private, actor, queue.jobs[i].destinationInventoryId);
    }
    hide PrivateOrdered, BlockResolves, PublicIndex, Inventories, HasInventory, JobsDistinct;
  }

  /** After the ordering checks the linkage check accepts exactly the overlays with referential
      integrity. */
  lemma LinkageIsReferentialIntegrity(actor: string, private: ActorPrivate, entities: seq<Entity>)
    requires EntitiesOrdered(entities) && PrivateOrdered(private)
    ensures Links(actor, private, entities) <==> ReferentialIntegrity(actor, private, entities)
  {
    PlayerLookup(actor, private.player, entities);
    InventoriesLinkMeans(actor, private, entities);
    DropsLinkMeans(actor, private, entities);
    forall i | 0 <= i < |private.ownedGridMasses|
      ensures MassLinks(PublicIndex(entities), actor, private.ownedGridMasses[i])
              <==> GridOwned(entities, actor, private.ownedGridMasses[i].gridId)
    {
      MassLookup(actor, private.ownedGridMasses[i], entities);
    }
    forall i | 0 <= i < |private.productionQueues|
      ensures QueueLinks(PublicIndex(entities), Inventories(private).Keys, actor, private.productionQueues[i])
              <==> QueueResolves(private, actor, entities, private.productionQueues[i])
    {
      QueueLinkMeans(actor, private, entities, private.productionQueues[i]);
    }
    hide EntitiesOrdered, PrivateOrdered, PlayerVisible, PublicIndex, Inventories, MassLinks, GridOwned, QueueLinks,
        QueueResolves,
         OneCarried, CargoResolves, CargoDistinct, DropsDistinct, DropLinks, CarriedCount, DroppedIds, DropInventories,
         InventoryLinks, DropVisible, DroppedOwned, HasDeathDrop;
  }
}
