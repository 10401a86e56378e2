/** The parsed wire values the interest verifier works on. Fields it never looks at are kept
    together in an uninterpreted `rest`, so that equality and the hash still see them. */
module InterestModel {
  import opened Prelude
  import A = Address

  datatype ErrorCode =
    | FrameTooLarge | InvalidJson | DuplicateKey | UnknownField | ResourceLimit | UnexpectedMessage
    | LegacyMessage | PendingStage | InvalidStageToken | IncompatibleWelcome | BindingMismatch
    | InvalidRegistry | InvalidAddress | InvalidPrivateLinkage | InvalidBaseline | InvalidDelta
    | FrontierMismatch | InvalidEntity | NonCanonicalOrder | InvalidFloat | HashMismatch | Serialization

  /** The result of a check: `And` stops at the first failure. */
  datatype Outcome = Pass | Fail(error: ErrorCode) {
    predicate IsFailure() { Fail? }

    function PropagateFailure<U>(): Result<U, ErrorCode>
      requires Fail?
    {
      Err(error)
    }

    function And(next: Outcome): Outcome {
      if Pass? then next else this
    }
  }

  function Require(condition: bool, code: ErrorCode): Outcome {
    if condition then Pass else Fail(code)
  }

  /** `usize::saturating_add`, on the exact sum. */
  function Saturated(count: nat): nat {
    if count > U64_MAX then U64_MAX else count
  }

  const PROTOCOL_VERSION: int := 18
  const PROJECTION_SCHEMA_VERSION: int := 4
  const CELESTIAL_REGISTRY_SCHEMA_VERSION: int := 1
  const UNIVERSE_MANIFEST_SCHEMA_VERSION: int := 4
  const INTEREST_SCHEMA_VERSION: int := 2
  const CELL_KEY_SCHEMA_VERSION: int := 1

  type Rest = string

  // ---- the public view -------------------------------------------------------------------

  datatype EntityKind = PlayerKind | GridKind | VoxelChunkKind | DeathDropKind

  datatype BlockKind =
    | Structural | ControlCore | PowerSource | Battery | Cargo | Drill | Anchor | DamageTest | Conveyor
    | Refinery | Assembler

  datatype PublicPlayer = PublicPlayer(playerId: string, address: A.UniverseAddress, rest: Rest)

  datatype PublicBlock = PublicBlock(blockId: string, kind: BlockKind, rest: Rest)

  datatype PublicGrid = PublicGrid(
    gridId: string, ownerPlayerId: string, address: A.UniverseAddress, blocks: seq<PublicBlock>, rest: Rest)

  datatype Voxel = Voxel(x: int, y: int, z: int, material: Rest)

  datatype PublicVoxelChunk = PublicVoxelChunk(chunkId: string, bodyId: string, revision: u64, voxels: seq<Voxel>)

  datatype PublicDeathDrop = PublicDeathDrop(dropId: string, address: A.UniverseAddress)

  datatype Payload =
    | PlayerPayload(player: PublicPlayer)
    | GridPayload(grid: PublicGrid)
    | VoxelChunkPayload(chunk: PublicVoxelChunk)
    | DeathDropPayload(drop: PublicDeathDrop)

  datatype Entity = Entity(
    entityId: string, kind: EntityKind, projectedRevision: u64, componentSchemaVersion: u32, payload: Payload)

  datatype Removal = Removal(entityId: string, kind: EntityKind, reason: Rest)

  type EntityKey = (string, EntityKind)

  function KeyOf(entity: Entity): EntityKey { (entity.entityId, entity.kind) }

  function RemovalKey(removal: Removal): EntityKey { (removal.entityId, removal.kind) }

  // ---- the actor's private overlay -------------------------------------------------------

  datatype Environment = Environment(
    bodyId: string, bodyName: string, scaleClass: Rest, nearestBodyId: string, nearestBodyName: string, rest: Rest)

  /** `motion` groups the pose, control and life-state fields that a private motion replaces. */
  datatype PrivatePlayer = PrivatePlayer(
    playerId: string, address: A.UniverseAddress, inventoryId: string, environment: Option<Environment>,
    motion: Rest, rest: Rest)

  datatype PlayerMotion = PlayerMotion(
    playerId: string, address: A.UniverseAddress, environment: Option<Environment>, motion: Rest)

  datatype InventoryDomain =
    | PlayerDomain(playerId: string)
    | CargoDomain(blockId: string)
    | DroppedDomain(reason: string, ownerPlayerId: string)

  datatype Inventory = Inventory(inventoryId: string, domain: InventoryDomain, rest: Rest)

  datatype DeathDrop = DeathDrop(
    dropId: string, inventoryId: string, ownerPlayerId: string, address: A.UniverseAddress, rest: Rest)

  datatype GridMass = GridMass(gridId: string, rest: Rest)

  datatype Recipe = Refining | Component

  datatype Job = Job(
    jobId: string, ownerPlayerId: string, machineBlockId: string, recipe: Recipe,
    sourceInventoryId: string, destinationInventoryId: string, rest: Rest)

  datatype Queue = Queue(machineBlockId: string, jobs: seq<Job>)

  datatype ActorPrivate = ActorPrivate(
    player: PrivatePlayer, operationSequence: u64, inventories: seq<Inventory>, deathDrops: seq<DeathDrop>,
    ownedGridMasses: seq<GridMass>, productionQueues: seq<Queue>)

  function WithMotion(private: ActorPrivate, motion: PlayerMotion): ActorPrivate {
    private.(player := private.player.(
      address := motion.address, environment := motion.environment, motion := motion.motion))
  }

  // ---- frames ----------------------------------------------------------------------------

  datatype Role = Spectator | Player(playerId: string)

  datatype ObserverClass = BoundPlayer | PublicOriginSpectator

  datatype FrameKind = BaselineFrame | DeltaFrame

  datatype TransferLink = TransferLink(transferId: string, destination: A.CellKey, placementGeneration: u64)

  datatype Interest = Interest(
    schemaVersion: u32, frameKind: FrameKind, sessionEpoch: string, interestEpoch: u64, baselineId: string,
    deltaSequence: u64, observerClass: ObserverClass, cellAddress: A.UniverseAddress, localOrigin: A.UniverseAddress,
    registryHash: string, universeManifestHash: string, transferLink: Option<TransferLink>,
    eventSequence: u64, tick: u64, worldHash: string, previousViewHash: Option<string>, viewHash: string,
    entered: seq<Entity>, replaced: seq<Entity>, removed: seq<Removal>)

  /** The header a baseline and a delta repeat outside their interest part. */
  datatype Outer = Outer(
    projectionSchemaVersion: u32, schemaVersion: u32, contentManifestVersion: string, universeId: string,
    cellId: string, universeManifestHash: string, registryHash: string, cellAddress: A.UniverseAddress,
    gravityBodyId: string, voxelBodyId: string, eventSequence: u64, tick: u64, worldHash: string)

  datatype Baseline = Baseline(
    outer: Outer, fencingToken: u64, players: seq<PublicPlayer>, environment: Environment,
    voxelChunks: seq<PublicVoxelChunk>, grids: seq<PublicGrid>, deathDrops: seq<PublicDeathDrop>,
    conservationValid: bool, interest: Interest, actorPrivate: Option<ActorPrivate>)

  datatype Delta = Delta(
    outer: Outer, environment: Option<Environment>, conservationValid: Option<bool>, interest: Interest,
    actorPrivate: Option<ActorPrivate>, actorPrivateMotion: Option<PlayerMotion>)

  datatype HandoffPhase = Preparing | Importing | VerifyingDestination

  datatype HandoffStatus = HandoffStatus(
    transferId: string, phase: HandoffPhase, destination: A.CellKey, placementGeneration: u64)

  datatype WelcomeBinding = WelcomeBinding(
    worldSchemaVersion: u32, eventSchemaVersion: u32, contentSchemaVersion: u32, contentManifestVersion: string,
    role: Role)

  datatype Message =
    | Welcome(protocolVersion: u32, projectionSchemaVersion: u32, registrySchemaVersion: u32,
              manifestSchemaVersion: u32, interestSchemaVersion: u32, serverName: string, binding: WelcomeBinding)
    | RegistryDocuments(registry: Rest, manifest: Rest)
    | InterestBaseline(baseline: Baseline)
    | InterestDelta(delta: Delta)
    | Handoff(handoff: HandoffStatus)
    | Snapshot(rest: Rest)
    | MotionState(rest: Rest)
    | IntentAccepted(rest: Rest)
    | IntentRejected(rest: Rest)
    | Fatal(code: string, message: string)

  // ---- what is established ---------------------------------------------------------------

  datatype Limits = Limits(maxEntities: u64, maxBlocksPerGrid: u64, maxVoxelsPerChunk: u64, maxPrivateRecords: u64)

  datatype Config = Config(
    expectedRole: Role, worldSchemaVersion: u32, eventSchemaVersion: u32, contentSchemaVersion: u32,
    contentManifestVersion: string, limits: Limits)

  datatype RegisteredBody = RegisteredBody(displayName: string, scaleClass: Rest)

  datatype Registry = Registry(
    universeId: string, registryHash: string, universeManifestHash: string, dimensions: A.Dimensions,
    bodies: map<string, RegisteredBody>)

  datatype View = View(
    contentManifestVersion: string, universeId: string, cellId: string, universeManifestHash: string,
    registryHash: string, cellAddress: A.UniverseAddress, localOrigin: A.UniverseAddress, gravityBodyId: string,
    voxelBodyId: string, observerClass: ObserverClass, sessionEpoch: string, interestEpoch: u64, baselineId: string,
    deltaSequence: u64, eventSequence: u64, tick: u64, entities: seq<Entity>, environment: Environment,
    conservationValid: bool, actorPrivate: Option<ActorPrivate>, transferLink: Option<TransferLink>, viewHash: string)

  /** What the view hash covers: not the event sequence, nor the tick. */
  datatype HashMaterial = HashMaterial(
    contentManifestVersion: string, universeId: string, cellId: string, universeManifestHash: string,
    registryHash: string, cellAddress: A.UniverseAddress, localOrigin: A.UniverseAddress, gravityBodyId: string,
    voxelBodyId: string, observerClass: ObserverClass, sessionEpoch: string, interestEpoch: u64, baselineId: string,
    deltaSequence: u64, transferLink: Option<TransferLink>, entities: seq<Entity>, environment: Environment,
    conservationValid: bool, actorPrivate: Option<ActorPrivate>)

  function Material(v: View): HashMaterial {
    HashMaterial(v.contentManifestVersion, v.universeId, v.cellId, v.universeManifestHash, v.registryHash,
                 v.cellAddress, v.localOrigin, v.gravityBodyId, v.voxelBodyId, v.observerClass, v.sessionEpoch,
                 v.interestEpoch, v.baselineId, v.deltaSequence, v.transferLink, v.entities, v.environment,
                 v.conservationValid, v.actorPrivate)
  }

  datatype HandoffBinding = HandoffBinding(status: HandoffStatus, sessionEpoch: string, priorInterestEpoch: u64)

  datatype Committed = Committed(
    welcome: Option<WelcomeBinding>, registry: Option<Registry>, view: Option<View>, handoff: Option<HandoffBinding>)

  datatype Acknowledgement = Acknowledgement(
    sessionEpoch: string, interestEpoch: u64, baselineId: string, deltaSequence: u64, viewHash: string)

  /** The computations the verifier calls but this model leaves uninterpreted: hashing, the
      registry documents, and turning values into JSON text. */
  datatype Trust = Trust(
    hashView: HashMaterial -> Result<string, ErrorCode>,
    cellId: A.CellKey -> Result<string, ErrorCode>,
    validateDocuments: (WelcomeBinding, Config, Rest, Rest) -> Result<Registry, ErrorCode>,
    sanitize: Message -> Result<string, ErrorCode>,
    acknowledge: Acknowledgement -> Result<string, ErrorCode>)
}
