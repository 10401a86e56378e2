/** The checks on one frame, in their order, and the view or handoff it leads to. */
module InterestFrames {
  import opened Prelude
  import opened Order
  import opened InterestModel
  import opened EntityDelta
  import opened PrivateLinkage
  import A = Address

  // ---- headers ---------------------------------------------------------------------------

  predicate AddressOk(r: Registry, a: A.UniverseAddress) { A.ValidIn(r.dimensions, a, r.universeId) }

  function AddressOutcome(r: Registry, a: A.UniverseAddress): Outcome { Require(AddressOk(r, a), InvalidAddress) }

  function EnvironmentOutcome(r: Registry, e: Environment): Outcome {
    Require(&& e.bodyId in r.bodies
            && r.bodies[e.bodyId] == RegisteredBody(e.bodyName, e.scaleClass)
            && e.nearestBodyId in r.bodies
            && r.bodies[e.nearestBodyId].displayName == e.nearestBodyName, BindingMismatch)
  }

  function OptionalEnvironment(r: Registry, e: Option<Environment>): Outcome {
    if e.Some? then EnvironmentOutcome(r, e.value) else Pass
  }

  function BodyBindings(r: Registry, gravity: string, voxel: string): Outcome {
    Require(if gravity == "" && voxel == "" then true
            else gravity != "" && voxel != "" && gravity in r.bodies && voxel in r.bodies, BindingMismatch)
  }

  function OuterOutcome(w: WelcomeBinding, r: Registry, o: Outer): Outcome {
    Require(&& o.projectionSchemaVersion == PROJECTION_SCHEMA_VERSION
            && o.schemaVersion == w.worldSchemaVersion
            && o.contentManifestVersion == w.contentManifestVersion
            && o.universeId == r.universeId
            && o.universeManifestHash == r.universeManifestHash
            && o.registryHash == r.registryHash
            && o.cellAddress.universeId == r.universeId, BindingMismatch)
    .And(AddressOutcome(r, o.cellAddress))
    .And(BodyBindings(r, o.gravityBodyId, o.voxelBodyId))
  }

  function HeaderOutcome(r: Registry, i: Interest, kind: FrameKind): Outcome {
    Require(&& i.schemaVersion == INTEREST_SCHEMA_VERSION
            && i.frameKind == kind
            && i.registryHash == r.registryHash
            && i.universeManifestHash == r.universeManifestHash
            && i.cellAddress.universeId == r.universeId
            && i.localOrigin.universeId == r.universeId, BindingMismatch)
    .And(AddressOutcome(r, i.cellAddress))
    .And(AddressOutcome(r, i.localOrigin))
  }

  function RepeatedOutcome(o: Outer, i: Interest): Outcome {
    Require(o.cellAddress == i.cellAddress && o.eventSequence == i.eventSequence && o.tick == i.tick
            && o.worldHash == i.worldHash, BindingMismatch)
  }

  function CellIdOutcome(trust: Trust, key: A.CellKey, cellId: string, wanted: bool): Outcome {
    match trust.cellId(key)
    case Err(error) => Fail(error)
    case Ok(id) => Require((id == cellId) == wanted, BindingMismatch)
  }

  function TransferLinkOutcome(trust: Trust, role: Role, r: Registry, o: Outer, i: Interest): Outcome {
    match i.transferLink
    case None => Pass
    case Some(link) =>
      Require(role.Player? && ValidStableId(link.transferId) && link.placementGeneration != 0
              && link.destination.schemaVersion == CELL_KEY_SCHEMA_VERSION, InvalidBaseline)
      .And(AddressOutcome(r, A.CellAddress(link.destination)))
      .And(Require(A.CellAddress(link.destination) == i.cellAddress, BindingMismatch))
      .And(CellIdOutcome(trust, link.destination, o.cellId, true))
  }

  function RoleOutcome(role: Role, observer: ObserverClass, private: Option<ActorPrivate>,
      motion: Option<PlayerMotion>): Outcome {
    Require(match role
            case Spectator => observer.PublicOriginSpectator? && private.None? && motion.None?
            case Player(id) => observer.BoundPlayer? && (private.Some? ==> private.value.player.playerId == id)
                               && (motion.Some? ==> motion.value.playerId == id), BindingMismatch)
  }

  // ---- vectors ---------------------------------------------------------------------------

  function PayloadOutcome(payload: Payload, limits: Limits, r: Registry): Outcome {
    match payload
    case PlayerPayload(player) => AddressOutcome(r, player.address)
    case DeathDropPayload(drop) => AddressOutcome(r, drop.address)
    case GridPayload(grid) =>
      AddressOutcome(r, grid.address)
      .And(Require(|grid.blocks| <= limits.maxBlocksPerGrid, ResourceLimit))
      .And(Require(Ascending(LexLess, BlockIds(grid.blocks)), NonCanonicalOrder))
    case VoxelChunkPayload(chunk) =>
      Require(chunk.bodyId in r.bodies, BindingMismatch)
      .And(Require(|chunk.voxels| <= limits.maxVoxelsPerChunk, ResourceLimit))
      .And(Require(Ascending(VoxelLess, VoxelCoordinates(chunk.voxels)), NonCanonicalOrder))
  }

  function EntityOutcome(e: Entity, limits: Limits, r: Registry): Outcome {
    Require(e.componentSchemaVersion == PROJECTION_SCHEMA_VERSION, InvalidEntity)
    .And(Require(PayloadMatches(e), InvalidEntity))
    .And(PayloadOutcome(e.payload, limits, r))
  }

  /** The first failure, in vector order. */
  function EntitiesOutcome(entities: seq<Entity>, limits: Limits, r: Registry): Outcome {
    if entities == [] then Pass
      else EntityOutcome(entities[0], limits, r).And(EntitiesOutcome(entities[1..], limits, r))
  }

  function VectorOutcome(entities: seq<Entity>, limits: Limits, r: Registry): Outcome {
    Require(|entities| <= limits.maxEntities, ResourceLimit)
    .And(Require(Ascending(KeyLess, Keys(entities)), NonCanonicalOrder))
    .And(EntitiesOutcome(entities, limits, r))
  }

  function RemovalsOutcome(removed: seq<Removal>, limits: Limits): Outcome {
    Require(|removed| <= limits.maxEntities, ResourceLimit)
    .And(Require(Ascending(KeyLess, RemovalKeys(removed)), NonCanonicalOrder))
  }

  function JobCount(queues: seq<Queue>): nat {
    if queues == [] then 0 else |queues[0].jobs| + JobCount(queues[1..])
  }

  function ActorPrivateOutcome(p: ActorPrivate, limits: Limits, r: Registry): Outcome {
    AddressOutcome(r, p.player.address)
    .And(OptionalEnvironment(r, p.player.environment))
    .And(Require(forall i | 0 <= i < |p.deathDrops| :: AddressOk(r, p.deathDrops[i].address), InvalidAddress))
    .And(Require(Saturated(|p.inventories| + |p.deathDrops| + |p.ownedGridMasses| + |p.productionQueues|
      + JobCount(p.productionQueues))
                 <= limits.maxPrivateRecords, ResourceLimit))
    .And(Require(PrivateOrdered(p), NonCanonicalOrder))
  }

  // ---- the arrays a baseline repeats -----------------------------------------------------

  function PublicPlayers(entities: seq<Entity>): seq<PublicPlayer> {
    if entities == [] then []
    else
      var n := |entities| - 1;
      PublicPlayers(entities[..n]) + if entities[n].payload.PlayerPayload? then [entities[n].payload.player] else []
  }

  function PublicGrids(entities: seq<Entity>): seq<PublicGrid> {
    if entities == [] then []
    else
      var n := |entities| - 1;
      PublicGrids(entities[..n]) + if entities[n].payload.GridPayload? then [entities[n].payload.grid] else []
  }

  function PublicChunks(entities: seq<Entity>): seq<PublicVoxelChunk> {
    if entities == [] then []
    else
      var n := |entities| - 1;
      PublicChunks(entities[..n]) + if entities[n].payload.VoxelChunkPayload? then [entities[n].payload.chunk] else []
  }

  function PublicDrops(entities: seq<Entity>): seq<PublicDeathDrop> {
    if entities == [] then []
    else
      var n := |entities| - 1;
      PublicDrops(entities[..n]) + if entities[n].payload.DeathDropPayload? then [entities[n].payload.drop] else []
  }

  function ArraysOutcome(b: Baseline): Outcome {
    Require(&& b.players == PublicPlayers(b.interest.entered) && b.grids == PublicGrids(b.interest.entered)
            && b.voxelChunks == PublicChunks(b.interest.entered)
              && b.deathDrops == PublicDrops(b.interest.entered), InvalidBaseline)
  }

  method ValidatePayloadArrays(b: Baseline) returns (r: Outcome)
    ensures r == ArraysOutcome(b)
  {
    var entities := b.interest.entered;
    var players: seq<PublicPlayer>, grids: seq<PublicGrid> := [], [];
    var chunks: seq<PublicVoxelChunk>, drops: seq<PublicDeathDrop> := [], [];
    for i := 0 to |entities|
      invariant players == PublicPlayers(entities[..i]) && grids == PublicGrids(entities[..i])
      invariant chunks == PublicChunks(entities[..i]) && drops == PublicDrops(entities[..i])
    {
      assert entities[..i + 1][..i] == entities[..i];
      match entities[i].payload {
        case PlayerPayload(value) => players := players + [value];
        case GridPayload(value) => grids := grids + [value];
        case VoxelChunkPayload(value) => chunks := chunks + [value];
        case DeathDropPayload(value) => drops := drops + [value];
      }
    }
    assert entities[..|entities|] == entities;
    r := Require(b.players == players && b.grids == grids && b.voxelChunks == chunks
      && b.deathDrops == drops, InvalidBaseline);
  }

  // ---- a baseline ------------------------------------------------------------------------

  function BaselineShape(i: Interest): Outcome {
    Require(&& i.deltaSequence == 0 && i.previousViewHash.None? && i.sessionEpoch != "" && i.baselineId != ""
            && i.replaced == [] && i.removed == [], InvalidBaseline)
  }

  function OptionalPrivate(p: Option<ActorPrivate>, limits: Limits, r: Registry): Outcome {
    if p.Some? then ActorPrivateOutcome(p.value, limits, r) else Pass
  }

  /** Everything before the payload arrays are compared. */
  function BaselineHeaders(trust: Trust, limits: Limits, w: WelcomeBinding, r: Registry, b: Baseline): Outcome {
    OuterOutcome(w, r, b.outer)
    .And(EnvironmentOutcome(r, b.environment))
    .And(HeaderOutcome(r, b.interest, BaselineFrame))
    .And(RepeatedOutcome(b.outer, b.interest))
    .And(TransferLinkOutcome(trust, w.role, r, b.outer, b.interest))
    .And(RoleOutcome(w.role, b.interest.observerClass, b.actorPrivate, None))
    .And(Require(w.role.Player? ==> b.actorPrivate.Some?, InvalidBaseline))
    .And(BaselineShape(b.interest))
    .And(VectorOutcome(b.interest.entered, limits, r))
  }

  function BaselineView(b: Baseline): View {
    var o, i := b.outer, b.interest;
    View(o.contentManifestVersion, o.universeId, o.cellId, o.universeManifestHash, o.registryHash, o.cellAddress,
         i.localOrigin, o.gravityBodyId, o.voxelBodyId, i.observerClass, i.sessionEpoch, i.interestEpoch, i.baselineId,
         0, i.eventSequence, i.tick, i.entered, b.environment, b.conservationValid, b.actorPrivate, i.transferLink, "")
  }

  /** The view with its own hash, when the wire carries exactly that hash. */
  function Hashed(trust: Trust, v: View, wire: string): Result<View, ErrorCode> {
    match trust.hashView(Material(v))
    case Err(error) => Err(error)
    case Ok(digest) => if ValidHash(wire) && wire == digest then Ok(v.(viewHash := digest)) else Err(HashMismatch)
  }

  function ValidatedBaseline(trust: Trust, limits: Limits, w: WelcomeBinding, r: Registry, b: Baseline): Result<View,
      ErrorCode> {
    var headers := BaselineHeaders(trust, limits, w, r, b);
    :- headers;
    :- ArraysOutcome(b);
    :- OptionalPrivate(b.actorPrivate, limits, r);
    :- LinkageOutcome(w.role, b.actorPrivate, b.interest.entered);
    Hashed(trust, BaselineView(b), b.interest.viewHash)
  }

  method ValidateBaseline(trust: Trust, limits: Limits, w: WelcomeBinding, r: Registry, b: Baseline)
    returns (result: Result<View, ErrorCode>)
    ensures result == ValidatedBaseline(trust, limits, w, r, b)
  {
    hide BaselineHeaders, ArraysOutcome, OptionalPrivate, LinkageOutcome, Hashed, BaselineView;
    var outcome := BaselineHeaders(trust, limits, w, r, b);
    if outcome.Fail? { return Err(outcome.error); }
    outcome := ValidatePayloadArrays(b);
    if outcome.Fail? { return Err(outcome.error); }
    outcome := OptionalPrivate(b.actorPrivate, limits, r);
    if outcome.Fail? { return Err(outcome.error); }
    outcome := ValidatePrivateLinkage(w.role, b.actorPrivate, b.interest.entered);
    if outcome.Fail? { return Err(outcome.error); }
    result := Hashed(trust, BaselineView(b), b.interest.viewHash);
  }

  // ---- a delta ---------------------------------------------------------------------------

  function FrontierOutcome(current: View, i: Interest): Outcome {
    Require(&& current.deltaSequence < U64_MAX
            && i.sessionEpoch == current.sessionEpoch
            && i.interestEpoch == current.interestEpoch
            && i.baselineId == current.baselineId
            && i.deltaSequence == current.deltaSequence + 1
            && i.previousViewHash == Some(current.viewHash)
            && i.observerClass == current.observerClass
            && i.cellAddress == current.cellAddress
            && i.eventSequence >= current.eventSequence
            && i.tick >= current.tick, FrontierMismatch)
  }

  /** Everything before the operations are compared with each other. */
  function DeltaHeaders(limits: Limits, w: WelcomeBinding, r: Registry, current: View, d: Delta): Outcome {
    OuterOutcome(w, r, d.outer)
    .And(OptionalEnvironment(r, d.environment))
    .And(HeaderOutcome(r, d.interest, DeltaFrame))
    .And(RepeatedOutcome(d.outer, d.interest))
    .And(RoleOutcome(w.role, d.interest.observerClass, d.actorPrivate, d.actorPrivateMotion))
    .And(FrontierOutcome(current, d.interest))
    .And(Require(d.interest.transferLink.None?, InvalidDelta))
    .And(Require(d.outer.cellId == current.cellId && d.outer.gravityBodyId == current.gravityBodyId
                 && d.outer.voxelBodyId == current.voxelBodyId, InvalidDelta))
    .And(Require(d.actorPrivate.None? || d.actorPrivateMotion.None?, InvalidDelta))
    .And(VectorOutcome(d.interest.entered, limits, r))
    .And(VectorOutcome(d.interest.replaced, limits, r))
    .And(RemovalsOutcome(d.interest.removed, limits))
  }

  function UpdatedPrivate(current: Option<ActorPrivate>, d: Delta, limits: Limits,
      r: Registry): Result<Option<ActorPrivate>, ErrorCode> {
    if d.actorPrivate.Some? then
      :- ActorPrivateOutcome(d.actorPrivate.value, limits, r);
      Ok(d.actorPrivate)
    else if d.actorPrivateMotion.Some? then
      var motion := d.actorPrivateMotion.value;
      :- AddressOutcome(r, motion.address).And(OptionalEnvironment(r, motion.environment));
      :- Require(current.Some? && current.value.player.playerId == motion.playerId, InvalidDelta);
      Ok(Some(WithMotion(current.value, motion)))
    else Ok(current)
  }

  function DeltaView(current: View, d: Delta, entities: seq<Entity>, private: Option<ActorPrivate>): View {
    current.(
      deltaSequence := d.interest.deltaSequence,
      eventSequence := d.interest.eventSequence,
      tick := d.interest.tick,
      localOrigin := d.interest.localOrigin,
      entities := entities,
      environment := if d.environment.Some? then d.environment.value else current.environment,
      conservationValid := if d.conservationValid.Some? then d.conservationValid.value else current.conservationValid,
      actorPrivate := private,
      transferLink := None,
      viewHash := "")
  }

  function ValidatedDelta(trust: Trust, limits: Limits, w: WelcomeBinding, r: Registry, current: View,
      d: Delta): Result<View, ErrorCode> {
    var i := d.interest;
    :- DeltaHeaders(limits, w, r, current, d);
    :- DisjointOutcome(i.entered, i.replaced, i.removed, limits);
    match Applied(current.entities, i.entered, i.replaced, i.removed, limits)
    case Err(error) => Err(error)
    case Ok(entities) =>
      match UpdatedPrivate(current.actorPrivate, d, limits, r)
      case Err(error) => Err(error)
      case Ok(private) =>
        :- LinkageOutcome(w.role, private, entities);
        Hashed(trust, DeltaView(current, d, entities, private), i.viewHash)
  }

  method ValidateDelta(trust: Trust, limits: Limits, w: WelcomeBinding, r: Registry, current: View, d: Delta)
    returns (result: Result<View, ErrorCode>)
    ensures result == ValidatedDelta(trust, limits, w, r, current, d)
  {
    hide DeltaHeaders, Applied, Distinct, Operations, UpdatedPrivate, LinkageOutcome, Hashed, DeltaView;
    var i := d.interest;
    var outcome := DeltaHeaders(limits, w, r, current, d);
    if outcome.Fail? { return Err(outcome.error); }
    outcome := ValidateDisjoint(i.entered, i.replaced, i.removed, limits);
    if outcome.Fail? { return Err(outcome.error); }
    var applied := ApplyOperations(current.entities, i.entered, i.replaced, i.removed, limits);
    if applied.Err? { return Err(applied.error); }
    var private := UpdatedPrivate(current.actorPrivate, d, limits, r);
    if private.Err? { return Err(private.error); }
    outcome := ValidatePrivateLinkage(w.role, private.value, applied.value);
    if outcome.Fail? { return Err(outcome.error); }
    result := Hashed(trust, DeltaView(current, d, applied.value, private.value), i.viewHash);
  }

  // ---- handoffs and recoveries -----------------------------------------------------------

  function HandoffMaterial(r: Registry, s: HandoffStatus): Outcome {
    Require(ValidStableId(s.transferId) && s.placementGeneration != 0
            && s.destination.schemaVersion == CELL_KEY_SCHEMA_VERSION, BindingMismatch)
    .And(AddressOutcome(r, A.CellAddress(s.destination)))
  }

  function InitialHandoff(trust: Trust, r: Registry, source: View, s: HandoffStatus): Outcome {
    Require(s.phase.Preparing?, UnexpectedMessage)
    .And(HandoffMaterial(r, s))
    .And(CellIdOutcome(trust, s.destination, source.cellId, false))
  }

  predicate PhaseFollows(current: HandoffPhase, candidate: HandoffPhase) {
    || candidate == current
    || (current.Preparing? && candidate.Importing?)
    || (current.Importing? && candidate.VerifyingDestination?)
  }

  function HandoffProgress(current: HandoffBinding, s: HandoffStatus): Outcome {
    Require(&& s == current.status.(phase := s.phase)
            && PhaseFollows(current.status.phase, s.phase), FrontierMismatch)
  }

  function DestinationBaseline(h: HandoffBinding, candidate: View): Outcome {
    match candidate.transferLink
    case None => Fail(InvalidBaseline)
    case Some(link) =>
      Require(&& h.priorInterestEpoch < U64_MAX
              && h.status.phase.VerifyingDestination?
              && link == TransferLink(h.status.transferId, h.status.destination, h.status.placementGeneration)
              && candidate.sessionEpoch == h.sessionEpoch
              && candidate.interestEpoch == h.priorInterestEpoch + 1, FrontierMismatch)
  }

  function RecoveryBaseline(current: View, candidate: View): Outcome {
    Require(&& candidate.sessionEpoch == current.sessionEpoch
            && candidate.observerClass == current.observerClass
            && candidate.interestEpoch > current.interestEpoch
            && candidate.baselineId != current.baselineId
            && candidate.eventSequence >= current.eventSequence
            && candidate.tick >= current.tick, FrontierMismatch)
  }

  // ---- what every accepted view satisfies ------------------------------------------------

  /** Entities ordered and within the limit, private records ordered, the overlay linked to the
      view, and the hash its own. */
  ghost predicate ViewHolds(trust: Trust, limits: Limits, role: Role, v: View) {
    && EntitiesOrdered(v.entities) && |v.entities| <= limits.maxEntities
    && (v.actorPrivate.Some? ==> PrivateOrdered(v.actorPrivate.value))
    && LinkageOutcome(role, v.actorPrivate, v.entities).Pass?
    && trust.hashView(Material(v)) == Ok(v.viewHash) && ValidHash(v.viewHash)
  }

  lemma {:induction false} EntitiesMatch(entities: seq<Entity>, limits: Limits, r: Registry)
    requires EntitiesOutcome(entities, limits, r).Pass?
    ensures forall i | 0 <= i < |entities| :: EntityOutcome(entities[i], limits, r).Pass?
  {
    if entities != [] {
      hide EntityOutcome;
      EntitiesMatch(entities[1..], limits, r);
      forall i | 0 <= i < |entities| ensures EntityOutcome(entities[i], limits, r).Pass? {
        if i > 0 { assert entities[i] == entities[1..][i - 1]; }
      }
    }
  }

  lemma VectorOrdered(entities: seq<Entity>, limits: Limits, r: Registry)
    requires VectorOutcome(entities, limits, r).Pass?
    ensures EntitiesOrdered(entities) && |entities| <= limits.maxEntities
  {
    EntitiesMatch(entities, limits, r);
    hide EntitiesOutcome, PayloadOutcome, PayloadMatches, Ascending;
    forall i | 0 <= i < |entities| ensures PayloadMatches(entities[i]) {
      assert EntityOutcome(entities[i], limits, r).Pass?;
    }
  }

  lemma HashedHolds(trust: Trust, v: View, wire: string)
    requires Hashed(trust, v, wire).Ok?
    ensures var h := Hashed(trust, v, wire).value;
            h == v.(viewHash := wire) && trust.hashView(Material(h)) == Ok(h.viewHash) && ValidHash(h.viewHash)
  {
    assert Material(v.(viewHash := wire)) == Material(v);
  }

  lemma BaselineHolds(trust: Trust, limits: Limits, w: WelcomeBinding, r: Registry, b: Baseline)
    requires ValidatedBaseline(trust, limits, w, r, b).Ok?
    ensures var v := ValidatedBaseline(trust, limits, w, r, b).value;
            ViewHolds(trust, limits, w.role, v) && v == BaselineView(b).(viewHash := b.interest.viewHash)
              && v.sessionEpoch != ""
  {
    assert VectorOutcome(b.interest.entered, limits, r).Pass? && BaselineShape(b.interest).Pass? by {
      hide VectorOutcome, OuterOutcome, EnvironmentOutcome, HeaderOutcome, RepeatedOutcome, TransferLinkOutcome,
          RoleOutcome;
    }
    hide BaselineHeaders, ArraysOutcome, LinkageOutcome, Hashed, ValidHash;
    VectorOrdered(b.interest.entered, limits, r);
    HashedHolds(trust, BaselineView(b), b.interest.viewHash);
    hide VectorOutcome, EntitiesOrdered, AddressOutcome, OptionalEnvironment, PrivateOrdered;
  }

  /** Every resulting entity was there, entered, or is a replacement. */
  lemma AlgebraFrom(current: seq<Entity>, entered: seq<Entity>, replaced: seq<Entity>, removed: seq<Removal>)
    ensures var all := Algebra(ByKey(current), entered, replaced, removed);
            forall k | k in all :: all[k] in current || all[k] in entered || all[k] in replaced
  {
    ByKeyNames(current);
    ByKeyNames(entered);
    ByKeyNames(replaced);
    hide ByKey, KeySet, Named;
  }

  lemma AppliedMatches(current: seq<Entity>, entered: seq<Entity>, replaced: seq<Entity>, removed: seq<Removal>,
      limits: Limits)
    requires EntitiesOrdered(current) && EntitiesOrdered(entered) && EntitiesOrdered(replaced)
    requires Applied(current, entered, replaced, removed, limits).Ok?
    ensures EntitiesOrdered(Applied(current, entered, replaced, removed, limits).value)
  {
    var out := Applied(current, entered, replaced, removed, limits).value;
    var all := Algebra(ByKey(current), entered, replaced, removed);
    DeltaIsMapAlgebra(current, entered, replaced, removed, limits);
    AlgebraFrom(current, entered, replaced, removed);
    hide Ascending, Listing, ByKey, PayloadMatches, KeySet, Applied, Algebra, Keys, KeyLess;
    ListingAscends(out, all);
    forall i | 0 <= i < |out| ensures PayloadMatches(out[i]) {
      assert all[KeyOf(out[i])] == out[i];
    }
  }

  lemma UpdatedPrivateOrdered(current: Option<ActorPrivate>, d: Delta, limits: Limits, r: Registry)
    requires current.Some? ==> PrivateOrdered(current.value)
    requires UpdatedPrivate(current, d, limits, r).Ok?
    ensures var p := UpdatedPrivate(current, d, limits, r).value;
            p.Some? ==> PrivateOrdered(p.value)
  {
    hide AddressOutcome, OptionalEnvironment, Ascending;
  }

  lemma DeltaChecked(trust: Trust, limits: Limits, w: WelcomeBinding, r: Registry, current: View, d: Delta)
    requires DeltaHeaders(limits, w, r, current, d).Pass?
    ensures VectorOutcome(d.interest.entered, limits, r).Pass? && VectorOutcome(d.interest.replaced, limits, r).Pass?
    ensures FrontierOutcome(current, d.interest).Pass?
  {
    hide VectorOutcome, OuterOutcome, OptionalEnvironment, HeaderOutcome, RepeatedOutcome, RoleOutcome,
        RemovalsOutcome, FrontierOutcome;
  }

  /** A delta keeps everything an accepted view satisfies, also when it leaves the private
      overlay as it was. */
  lemma DeltaHolds(trust: Trust, limits: Limits, w: WelcomeBinding, r: Registry, current: View, d: Delta)
    requires ViewHolds(trust, limits, w.role, current)
    requires ValidatedDelta(trust, limits, w, r, current, d).Ok?
    ensures var v := ValidatedDelta(trust, limits, w, r, current, d).value;
            && ViewHolds(trust, limits, w.role, v)
            && v.sessionEpoch == current.sessionEpoch && v.interestEpoch == current.interestEpoch
            && v.baselineId == current.baselineId && v.deltaSequence == current.deltaSequence + 1
            && v.eventSequence >= current.eventSequence && v.tick >= current.tick
            && v.cellId == current.cellId && v.cellAddress == current.cellAddress
    ensures d.interest.previousViewHash == Some(current.viewHash) && d.interest.observerClass == current.observerClass
    ensures d.interest.sessionEpoch == current.sessionEpoch && d.interest.interestEpoch == current.interestEpoch
        && d.interest.baselineId == current.baselineId && d.interest.deltaSequence == current.deltaSequence + 1
  {
    var i := d.interest;
    DeltaChecked(trust, limits, w, r, current, d);
    hide DeltaHeaders, DisjointOutcome, LinkageOutcome, Hashed, ValidHash, EntitiesOrdered, PrivateOrdered,
        VectorOutcome, UpdatedPrivate;
    VectorOrdered(i.entered, limits, r);
    VectorOrdered(i.replaced, limits, r);
    AppliedMatches(current.entities, i.entered, i.replaced, i.removed, limits);
    UpdatedPrivateOrdered(current.actorPrivate, d, limits, r);
    var entities := Applied(current.entities, i.entered, i.replaced, i.removed, limits).value;
    var private := UpdatedPrivate(current.actorPrivate, d, limits, r).value;
    HashedHolds(trust, DeltaView(current, d, entities, private), i.viewHash);
  }

  /** A player's accepted view has referential integrity between its overlay and its entities. */
  lemma HeldViewsAreLinked(trust: Trust, limits: Limits, role: Role, v: View)
    requires ViewHolds(trust, limits, role, v)
    ensures role.Player? ==>
        v.actorPrivate.Some? && ReferentialIntegrity(role.playerId, v.actorPrivate.value, v.entities)
    ensures role.Spectator? ==> v.actorPrivate.None?
  {
    hide ReferentialIntegrity, Links, EntitiesOrdered, PrivateOrdered, ValidHash;
    if role.Player? && v.actorPrivate.Some? {
      LinkageIsReferentialIntegrity(role.playerId, v.actorPrivate.value, v.entities);
    }
  }
}
