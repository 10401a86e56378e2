/** The durable cell directory: its document, the validator that guards every reopening, and
    the guarded edit each step makes. A step either refuses, keeps the document and returns a
    stored record, or proposes a next document to be installed with one revision bump. */
module CellDirectory {
  import opened Prelude
  import opened Address

  type CellId = string

  /** The hash behind `cell_id`, on keys that `validate_cell_key` accepts. */
  type CellHash = CellKey -> CellId

  ghost predicate Injective(hash: CellHash) {
    forall a, b :: hash(a) == hash(b) ==> a == b
  }

  datatype CellAssignmentState = Sleeping | Claiming | Assigned | Releasing

  datatype CellAssignmentRecord = CellAssignmentRecord(
    cellKey: CellKey, cellId: CellId, assignmentGeneration: u64, authorityFencingToken: u64,
    fencingHistory: map<u64, u64>, state: CellAssignmentState, holderId: Option<string>)

  datatype MobileAggregateKind = Player | Grid

  datatype AggregatePlacementState = Resident | Preparing | InTransit

  datatype AggregatePlacementRecord = AggregatePlacementRecord(
    aggregateId: string, aggregateKind: MobileAggregateKind, cellKey: CellKey, cellId: CellId,
    placementGeneration: u64, state: AggregatePlacementState, activeTransferId: Option<string>)

  datatype TransferPhase = Prepared | Quarantined | Committed | Imported | Finalized | Aborting | Aborted

  datatype AbortRole = Source | Destination

  datatype PrepareProof = PrepareProof(
    transferId: string, packageHash: string, sourceCellId: CellId, sourceAssignmentGeneration: u64,
    priorPlacementGeneration: u64, sourceFencingToken: u64, sourceEventSequence: u64,
    sourceEventHash: string, sourceWorldHash: string)

  datatype QuarantineProof = QuarantineProof(
    transferId: string, packageHash: string, quarantineReceiptHash: string, destinationCellId: CellId,
    destinationAssignmentGeneration: u64, resultingPlacementGeneration: u64, destinationFencingToken: u64,
    destinationEventSequence: u64, destinationEventHash: string, destinationWorldHash: string)

  datatype ImportProof = ImportProof(
    transferId: string, packageHash: string, quarantineReceiptHash: string, destinationCellId: CellId,
    destinationAssignmentGeneration: u64, resultingPlacementGeneration: u64, destinationFencingToken: u64,
    destinationEventSequence: u64, destinationEventHash: string, destinationWorldHash: string)

  datatype FinalizationProof = FinalizationProof(
    transferId: string, packageHash: string, sourceCellId: CellId, sourceAssignmentGeneration: u64,
    resultingPlacementGeneration: u64, sourceFencingToken: u64, sourceEventSequence: u64,
    sourceEventHash: string, sourceWorldHash: string)

  datatype AbortProof = AbortProof(
    transferId: string, packageHash: string, cellId: CellId, assignmentGeneration: u64, role: AbortRole,
    fencingToken: u64, eventSequence: u64, eventHash: string, worldHash: string)

  datatype CellTransferRecord = CellTransferRecord(
    transferId: string, aggregateId: string, aggregateKind: MobileAggregateKind,
    sourceCellKey: CellKey, sourceCellId: CellId, destinationCellKey: CellKey, destinationCellId: CellId,
    sourceAssignmentGeneration: u64, destinationAssignmentGeneration: u64,
    priorPlacementGeneration: u64, resultingPlacementGeneration: u64, packageHash: string,
    quarantineReceiptHash: Option<string>,
    sourcePrepareProof: Option<PrepareProof>, destinationQuarantineProof: Option<QuarantineProof>,
    importProof: Option<ImportProof>, finalizationProof: Option<FinalizationProof>,
    sourceAbortProof: Option<AbortProof>, destinationAbortProof: Option<AbortProof>,
    phase: TransferPhase)

  datatype Document = Document(
    schemaVersion: u32, universeId: string, universeManifestHash: string, directoryRevision: u64,
    assignments: map<CellId, CellAssignmentRecord>,
    placements: map<string, AggregatePlacementRecord>,
    transfers: map<string, CellTransferRecord>)

  datatype DirectoryError =
    | InvalidDirectory
    | UnknownCell(cellId: CellId)
    | AssignmentConflict(cellId: CellId)
    | AssignmentGenerationExhausted(cellId: CellId)
    | TransferConflict(transferId: string)
    | UnknownAggregate(aggregateId: string)
    | UnknownTransfer(transferId: string)
    | PlacementGenerationExhausted(aggregateId: string)
    | DirectoryRevisionExhausted
    | Io

  const CELL_DIRECTORY_SCHEMA_VERSION: u32 := 2

  predicate Terminal(phase: TransferPhase) { phase.Finalized? || phase.Aborted? }

  // ---- the validator ---------------------------------------------------------------------

  datatype Manifest = Manifest(universeId: string, manifestHash: string)

  /** Generations 1 to the current one, each with a positive and strictly larger fence. */
  predicate ValidHistory(a: CellAssignmentRecord) {
    && (forall g | g in a.fencingHistory :: 1 <= g <= a.assignmentGeneration)
    && (forall g: u64 | 1 <= g <= a.assignmentGeneration :: g in a.fencingHistory)
    && (forall g | g in a.fencingHistory :: a.fencingHistory[g] > 0)
    && (forall g | g in a.fencingHistory && 1 < g && g - 1 in a.fencingHistory ::
      a.fencingHistory[g - 1] < a.fencingHistory[g])
    && (if a.assignmentGeneration in a.fencingHistory then a.fencingHistory[a.assignmentGeneration] else 0)
      == a.authorityFencingToken
  }

  predicate ValidAssignment(cellId: CellId, cellKey: CellKey, a: CellAssignmentRecord) {
    && a.cellId == cellId
    && a.cellKey == cellKey
    && (match a.state
        case Sleeping => a.holderId.None?
        case Assigned =>
          a.assignmentGeneration != 0 && a.authorityFencingToken != 0 && a.holderId.Some? && a.holderId.value != ""
        case Claiming => false
        case Releasing => false)
    && ValidHistory(a)
  }

  predicate ValidPlacement(assignments: map<CellId, CellAssignmentRecord>, aggregateId: string,
      p: AggregatePlacementRecord) {
    && ValidStableId(aggregateId)
    && p.aggregateId == aggregateId
    && p.placementGeneration != 0
    && p.cellId in assignments
    && assignments[p.cellId].cellKey == p.cellKey
    && (p.state.Resident? <==> p.activeTransferId.None?)
  }

  predicate PrepareProofBinds(t: CellTransferRecord, proof: PrepareProof) {
    && ValidHash(proof.sourceEventHash) && ValidHash(proof.sourceWorldHash)
    && proof.transferId == t.transferId
    && proof.packageHash == t.packageHash
    && proof.sourceCellId == t.sourceCellId
    && proof.sourceAssignmentGeneration >= t.sourceAssignmentGeneration
    && proof.priorPlacementGeneration == t.priorPlacementGeneration
    && proof.sourceFencingToken != 0
    && proof.sourceEventSequence != 0
  }

  predicate QuarantineProofBinds(t: CellTransferRecord, proof: QuarantineProof) {
    && ValidHash(proof.destinationEventHash) && ValidHash(proof.destinationWorldHash)
    && proof.transferId == t.transferId
    && proof.packageHash == t.packageHash
    && (t.quarantineReceiptHash.Some? ==> t.quarantineReceiptHash.value == proof.quarantineReceiptHash)
    && proof.destinationCellId == t.destinationCellId
    && proof.destinationAssignmentGeneration >= t.destinationAssignmentGeneration
    && proof.resultingPlacementGeneration == t.resultingPlacementGeneration
    && proof.destinationFencingToken != 0
    && proof.destinationEventSequence != 0
  }

  predicate ImportProofBinds(t: CellTransferRecord, proof: ImportProof) {
    && ValidHash(proof.destinationEventHash) && ValidHash(proof.destinationWorldHash)
    && proof.transferId == t.transferId
    && proof.packageHash == t.packageHash
    && t.quarantineReceiptHash == Some(proof.quarantineReceiptHash)
    && proof.destinationCellId == t.destinationCellId
    && proof.destinationAssignmentGeneration >= t.destinationAssignmentGeneration
    && proof.resultingPlacementGeneration == t.resultingPlacementGeneration
    && proof.destinationFencingToken != 0
    && proof.destinationEventSequence != 0
  }

  predicate FinalizationProofBinds(t: CellTransferRecord, proof: FinalizationProof) {
    && ValidHash(proof.sourceEventHash) && ValidHash(proof.sourceWorldHash)
    && proof.transferId == t.transferId
    && proof.packageHash == t.packageHash
    && proof.sourceCellId == t.sourceCellId
    && proof.sourceAssignmentGeneration >= t.sourceAssignmentGeneration
    && proof.resultingPlacementGeneration == t.resultingPlacementGeneration
    && proof.sourceFencingToken != 0
    && proof.sourceEventSequence != 0
  }

  predicate AbortProofBinds(t: CellTransferRecord, proof: AbortProof) {
    && ValidHash(proof.eventHash) && ValidHash(proof.worldHash)
    && proof.transferId == t.transferId
    && proof.packageHash == t.packageHash
    && proof.cellId == (if proof.role.Source? then t.sourceCellId else t.destinationCellId)
    && proof.assignmentGeneration
      >= (if proof.role.Source? then t.sourceAssignmentGeneration else t.destinationAssignmentGeneration)
    && proof.fencingToken != 0
    && proof.eventSequence != 0
  }

  /** `validate_historical_proof_authority`. */
  predicate HistoricalAuthority(generation: u64, fence: u64, a: CellAssignmentRecord) {
    generation in a.fencingHistory && a.fencingHistory[generation] == fence
  }

  /** The validator's checks on the transfer record and the three records it names. */
  predicate TransferBound(transferId: string, t: CellTransferRecord, source: CellAssignmentRecord,
                          destination: CellAssignmentRecord, p: AggregatePlacementRecord) {
    && ValidStableId(transferId)
    && ValidStableId(t.aggregateId)
    && ValidHash(t.packageHash)
    && t.transferId == transferId
    && t.sourceCellId != t.destinationCellId
    && t.sourceAssignmentGeneration != 0
    && t.destinationAssignmentGeneration != 0
    && t.priorPlacementGeneration != 0
    && t.priorPlacementGeneration + 1 == t.resultingPlacementGeneration
    && source.cellKey == t.sourceCellKey
    && destination.cellKey == t.destinationCellKey
    && p.aggregateKind == t.aggregateKind
    && (t.quarantineReceiptHash.Some? ==> ValidHash(t.quarantineReceiptHash.value))
  }

  predicate ProofsBound(t: CellTransferRecord, source: CellAssignmentRecord, destination: CellAssignmentRecord) {
    && (t.sourcePrepareProof.Some? ==>
          var proof := t.sourcePrepareProof.value;
          PrepareProofBinds(t, proof)
            && HistoricalAuthority(proof.sourceAssignmentGeneration, proof.sourceFencingToken, source))
    && (t.destinationQuarantineProof.Some? ==>
          var proof := t.destinationQuarantineProof.value;
          && QuarantineProofBinds(t, proof)
          && HistoricalAuthority(proof.destinationAssignmentGeneration, proof.destinationFencingToken, destination)
          && t.quarantineReceiptHash == Some(proof.quarantineReceiptHash))
    && (t.importProof.Some? ==>
          var proof := t.importProof.value;
          ImportProofBinds(t, proof)
            && HistoricalAuthority(proof.destinationAssignmentGeneration, proof.destinationFencingToken, destination))
    && (t.finalizationProof.Some? ==>
          var proof := t.finalizationProof.value;
          FinalizationProofBinds(t, proof)
            && HistoricalAuthority(proof.sourceAssignmentGeneration, proof.sourceFencingToken, source))
    && (t.sourceAbortProof.Some? ==>
          var proof := t.sourceAbortProof.value;
          AbortProofBinds(t, proof) && HistoricalAuthority(proof.assignmentGeneration, proof.fencingToken, source)
            && proof.role.Source?)
    && (t.destinationAbortProof.Some? ==>
          var proof := t.destinationAbortProof.value;
          AbortProofBinds(t, proof) && HistoricalAuthority(proof.assignmentGeneration, proof.fencingToken, destination)
            && proof.role.Destination?)
  }

  predicate PlacementMatches(transferId: string, t: CellTransferRecord, p: AggregatePlacementRecord) {
    match t.phase
    case Prepared | Quarantined | Aborting =>
      && p.state.Preparing? && p.cellId == t.sourceCellId
      && p.placementGeneration == t.priorPlacementGeneration && p.activeTransferId == Some(transferId)
    case Committed =>
      && p.state.InTransit? && p.cellId == t.destinationCellId
      && p.placementGeneration == t.resultingPlacementGeneration && p.activeTransferId == Some(transferId)
    case Imported | Finalized =>
      || p.placementGeneration > t.resultingPlacementGeneration
      || (p.placementGeneration == t.resultingPlacementGeneration && p.cellId == t.destinationCellId)
    case Aborted =>
      || p.placementGeneration > t.priorPlacementGeneration
      || (p.placementGeneration == t.priorPlacementGeneration && p.cellId == t.sourceCellId)
  }

  /** A transfer past quarantine on the way to the destination, or already there. */
  predicate PastQuarantine(phase: TransferPhase) {
    phase.Quarantined? || phase.Committed? || phase.Imported? || phase.Finalized?
  }

  /** Every clause on the presence of proofs, except the one on the source prepare proof. */
  predicate PhaseShape(t: CellTransferRecord) {
    && (t.phase.Prepared? ==> t.quarantineReceiptHash.None?)
    && (PastQuarantine(t.phase) ==> t.quarantineReceiptHash.Some? && t.destinationQuarantineProof.Some?)
    && (t.destinationQuarantineProof.Some? <==> t.quarantineReceiptHash.Some?)
    && (!t.phase.Imported? && !t.phase.Finalized? ==> t.importProof.None? && t.finalizationProof.None?)
    && (t.phase.Imported? ==> t.importProof.Some? && t.finalizationProof.None?)
    && (t.phase.Finalized? ==> t.importProof.Some? && t.finalizationProof.Some?)
    && (!t.phase.Aborting? && !t.phase.Aborted? ==> t.sourceAbortProof.None? && t.destinationAbortProof.None?)
    && (t.phase.Aborted? ==> t.sourceAbortProof.Some? && t.destinationAbortProof.Some?)
  }

  predicate SourceProofShape(t: CellTransferRecord) {
    t.sourcePrepareProof.None? ==> t.phase.Prepared? || t.phase.Aborted?
  }

  predicate TransferNamesRecords(d: Document, t: CellTransferRecord) {
    t.sourceCellId in d.assignments && t.destinationCellId in d.assignments && t.aggregateId in d.placements
  }

  predicate ValidTransfer(d: Document, transferId: string, t: CellTransferRecord) {
    && TransferNamesRecords(d, t)
    && var source, destination, p := d.assignments[t.sourceCellId], d.assignments[t.destinationCellId],
      d.placements[t.aggregateId];
    && TransferBound(transferId, t, source, destination, p)
    && ProofsBound(t, source, destination)
    && PlacementMatches(transferId, t, p)
    && PhaseShape(t)
    && SourceProofShape(t)
  }

  predicate ValidHeader(d: Document, manifest: Manifest) {
    && d.schemaVersion == CELL_DIRECTORY_SCHEMA_VERSION
    && d.universeId == manifest.universeId
    && d.universeManifestHash == manifest.manifestHash
    && d.directoryRevision != 0
  }

  /** `validate_document`: what must hold of the stored document for the directory to open. */
  predicate ValidDocument(d: Document, manifest: Manifest, expected: map<CellId, CellAssignmentRecord>) {
    && ValidHeader(d, manifest)
    && |d.assignments| == |expected|
    && (forall id | id in expected ::
          id in d.assignments && ValidAssignment(id, expected[id].cellKey, d.assignments[id]))
    && (forall id | id in d.placements :: ValidPlacement(d.assignments, id, d.placements[id]))
    && (forall id | id in d.transfers :: ValidTransfer(d, id, d.transfers[id]))
  }

  // ---- steps -----------------------------------------------------------------------------

  datatype Plan<+R> =
    | Refuse(error: DirectoryError)
    | Keep(record: R)
    | Install(next: Document, record: R)

  /** `commit_document`: the revision bump and the atomic write, which may fail with no effect. */
  function Commit(d: Document, next: Document, durable: bool): (Document, Option<DirectoryError>) {
    if d.directoryRevision == U64_MAX then (d, Some(DirectoryRevisionExhausted))
    else if !durable then (d, Some(Io))
    else (next.(directoryRevision := d.directoryRevision + 1), None)
  }

  function Finish<R>(d: Document, plan: Plan<R>, durable: bool): (Document, Result<R, DirectoryError>) {
    match plan
    case Refuse(error) => (d, Err(error))
    case Keep(record) => (d, Ok(record))
    case Install(next, record) =>
      var (after, error) := Commit(d, next, durable);
      (after, if error.Some? then Err(error.value) else Ok(record))
  }

  function CellIdOf(hash: CellHash, key: CellKey): Result<CellId, DirectoryError> {
    if ValidCellKey(key) then Ok(hash(key)) else Err(InvalidDirectory)
  }

  function AssignmentOf(hash: CellHash, d: Document, key: CellKey): Result<CellAssignmentRecord, DirectoryError> {
    match CellIdOf(hash, key)
    case Err(e) => Err(e)
    case Ok(id) => if id in d.assignments then Ok(d.assignments[id]) else Err(UnknownCell(id))
  }

  function PlacementOf(d: Document, aggregateId: string): Result<AggregatePlacementRecord, DirectoryError> {
    if aggregateId in d.placements then Ok(d.placements[aggregateId]) else Err(UnknownAggregate(aggregateId))
  }

  function TransferOf(d: Document, transferId: string): Result<CellTransferRecord, DirectoryError> {
    if transferId in d.transfers then Ok(d.transfers[transferId]) else Err(UnknownTransfer(transferId))
  }

  function WithAssignment(d: Document, a: CellAssignmentRecord, id: CellId): Document {
    d.(assignments := d.assignments[id := a])
  }

  function WithTransfer(d: Document, t: CellTransferRecord, id: string): Document {
    d.(transfers := d.transfers[id := t])
  }

  function WithPlacement(d: Document, p: AggregatePlacementRecord, id: string): Document {
    d.(placements := d.placements[id := p])
  }

  /** The next generation under a new holder and a larger fence, appended to the history. */
  function Advanced(a: CellAssignmentRecord, holderId: string, fence: u64): CellAssignmentRecord
    requires a.assignmentGeneration < U64_MAX
  {
    a.(assignmentGeneration := a.assignmentGeneration + 1, authorityFencingToken := fence,
       fencingHistory := a.fencingHistory[a.assignmentGeneration + 1 := fence],
       state := Assigned, holderId := Some(holderId))
  }

  function ClaimPlan(hash: CellHash, d: Document, key: CellKey, expected: u64, holderId: string,
      fence: u64): Plan<CellAssignmentRecord> {
    if !ValidStableId(holderId) || fence == 0 then Refuse(InvalidDirectory)
    else match AssignmentOf(hash, d, key)
      case Err(e) => Refuse(e)
      case Ok(a) =>
        if a.assignmentGeneration != expected || !a.state.Sleeping? || a.holderId.Some?
          then Refuse(AssignmentConflict(hash(key)))
        else if a.assignmentGeneration == U64_MAX then Refuse(AssignmentGenerationExhausted(a.cellId))
        else if fence <= a.authorityFencingToken then Refuse(AssignmentConflict(hash(key)))
        else Install(WithAssignment(d, Advanced(a, holderId, fence), hash(key)), Advanced(a, holderId, fence))
  }

  function RecoverPlan(hash: CellHash, d: Document, key: CellKey, expected: u64, holderId: string,
      fence: u64): Plan<CellAssignmentRecord> {
    if !ValidStableId(holderId) then Refuse(InvalidDirectory)
    else match AssignmentOf(hash, d, key)
      case Err(e) => Refuse(e)
      case Ok(a) =>
        if a.assignmentGeneration != expected || !a.state.Assigned? then Refuse(AssignmentConflict(hash(key)))
        else if a.assignmentGeneration == U64_MAX then Refuse(AssignmentGenerationExhausted(a.cellId))
        else if fence <= a.authorityFencingToken then Refuse(AssignmentConflict(hash(key)))
        else Install(WithAssignment(d, Advanced(a, holderId, fence), hash(key)), Advanced(a, holderId, fence))
  }

  predicate PinnedBy(t: CellTransferRecord, cellId: CellId) {
    !Terminal(t.phase) && (t.sourceCellId == cellId || t.destinationCellId == cellId)
  }

  predicate Pinned(d: Document, cellId: CellId) {
    exists id :: id in d.transfers && PinnedBy(d.transfers[id], cellId)
  }

  function ReleasePlan(hash: CellHash, d: Document, key: CellKey, expected: u64,
      holderId: string): Plan<CellAssignmentRecord> {
    if !ValidStableId(holderId) then Refuse(InvalidDirectory)
    else match AssignmentOf(hash, d, key)
      case Err(e) => Refuse(e)
      case Ok(a) =>
        if a.state.Sleeping? && a.assignmentGeneration == expected && a.holderId.None? then Keep(a)
        else if a.assignmentGeneration != expected || !a.state.Assigned? || a.holderId != Some(holderId) then
          Refuse(AssignmentConflict(hash(key)))
        else if Pinned(d, hash(key)) then Refuse(AssignmentConflict(hash(key)))
        else
          var released := a.(state := Sleeping, holderId := None);
          Install(WithAssignment(d, released, hash(key)), released)
  }

  function RegisterPlan(hash: CellHash, d: Document, aggregateId: string, kind: MobileAggregateKind,
      key: CellKey): Plan<AggregatePlacementRecord> {
    if !ValidStableId(aggregateId) then Refuse(InvalidDirectory)
    else match AssignmentOf(hash, d, key)
      case Err(e) => Refuse(e)
      case Ok(a) =>
        var requested := AggregatePlacementRecord(aggregateId, kind, key, a.cellId, 1, Resident, None);
        if aggregateId in d.placements then
          if d.placements[aggregateId] == requested then Keep(requested) else Refuse(TransferConflict(aggregateId))
        else Install(WithPlacement(d, requested, aggregateId), requested)
  }

  function PreparePlan(hash: CellHash, d: Document, aggregateId: string, expected: u64, transferId: string,
                       destinationKey: CellKey, packageHash: string): Plan<CellTransferRecord> {
    if !ValidStableId(aggregateId) || !ValidStableId(transferId) || !ValidHash(packageHash)
      then Refuse(InvalidDirectory)
    else if transferId in d.transfers then
      var existing := d.transfers[transferId];
      if && existing.aggregateId == aggregateId && existing.destinationCellKey == destinationKey
         && existing.priorPlacementGeneration == expected && existing.packageHash == packageHash
      then Keep(existing)
      else Refuse(TransferConflict(transferId))
    else match PlacementOf(d, aggregateId)
      case Err(e) => Refuse(e)
      case Ok(p) =>
        match AssignmentOf(hash, d, p.cellKey)
        case Err(e) => Refuse(e)
        case Ok(source) =>
          match AssignmentOf(hash, d, destinationKey)
          case Err(e) => Refuse(e)
          case Ok(destination) =>
            if !source.state.Assigned? || !destination.state.Assigned? then Refuse(TransferConflict(transferId))
            else if || !p.state.Resident? || p.activeTransferId.Some? || p.placementGeneration != expected
                    || p.cellId == destination.cellId
            then Refuse(TransferConflict(transferId))
            else if p.placementGeneration == U64_MAX then Refuse(PlacementGenerationExhausted(aggregateId))
            else
              var requested := NewTransfer(p, aggregateId, transferId, source, destination, destinationKey,
                  packageHash);
              var preparing := p.(state := Preparing, activeTransferId := Some(transferId));
              Install(WithTransfer(WithPlacement(d, preparing, aggregateId), requested, transferId), requested)
  }

  function NewTransfer(p: AggregatePlacementRecord, aggregateId: string, transferId: string,
      source: CellAssignmentRecord, destination: CellAssignmentRecord, destinationKey: CellKey,
      packageHash: string): CellTransferRecord
    requires p.placementGeneration < U64_MAX
  {
    CellTransferRecord(transferId, aggregateId, p.aggregateKind, p.cellKey, p.cellId, destinationKey,
      destination.cellId,
                       source.assignmentGeneration, destination.assignmentGeneration,
                       p.placementGeneration, p.placementGeneration + 1, packageHash,
                       None, None, None, None, None, None, None, Prepared)
  }

  lemma SingletonWitness(generations: set<u64>)
    requires |generations| == 1
    ensures exists g :: generations == {g}
  {
    var g :| g in generations;
    assert |generations - {g}| == 0;
    assert generations == {g};
  }

  function GenerationsOf(a: CellAssignmentRecord, fence: u64): set<u64> {
    set g | g in a.fencingHistory && a.fencingHistory[g] == fence
  }

  /** `resolve_proof_generation`: the one generation whose fence this is, if the cell is assigned. */
  function ResolveGeneration(claimed: u64, fence: u64, a: CellAssignmentRecord): Option<u64> {
    var generations := GenerationsOf(a, fence);
    if !a.state.Assigned? || |generations| != 1 then None
    else
      assert exists g :: generations == {g} by { SingletonWitness(generations); }
      var g :| generations == {g};
      if claimed != 0 && claimed != g then None else Some(g)
  }

  function SourcePreparedPlan(hash: CellHash, d: Document, transferId: string,
      submitted: PrepareProof): Plan<CellTransferRecord> {
    match TransferOf(d, transferId)
    case Err(e) => Refuse(e)
    case Ok(current) =>
      match AssignmentOf(hash, d, current.sourceCellKey)
      case Err(e) => Refuse(e)
      case Ok(source) =>
        match ResolveGeneration(submitted.sourceAssignmentGeneration, submitted.sourceFencingToken, source)
        case None => Refuse(TransferConflict(current.transferId))
        case Some(generation) =>
          var proof := submitted.(sourceAssignmentGeneration := generation);
          if !ValidHash(proof.sourceEventHash) || !ValidHash(proof.sourceWorldHash) then Refuse(InvalidDirectory)
          else if !PrepareProofBinds(current, proof) then Refuse(TransferConflict(current.transferId))
          else if current.sourcePrepareProof.Some? then
            if current.sourcePrepareProof.value == proof then Keep(current) else Refuse(TransferConflict(transferId))
          else if !current.phase.Prepared? then Refuse(TransferConflict(transferId))
          else if !HistoricalAuthority(proof.sourceAssignmentGeneration, proof.sourceFencingToken, source)
            then Refuse(InvalidDirectory)
          else
            var after := current.(sourcePrepareProof := Some(proof));
            Install(WithTransfer(d, after, transferId), after)
  }

  function QuarantinePlan(hash: CellHash, d: Document, transferId: string, packageHash: string, receiptHash: string,
                          submitted: QuarantineProof): Plan<CellTransferRecord> {
    if !ValidHash(packageHash) || !ValidHash(receiptHash) then Refuse(InvalidDirectory)
    else match TransferOf(d, transferId)
      case Err(e) => Refuse(e)
      case Ok(current) =>
        if current.packageHash != packageHash then Refuse(TransferConflict(transferId))
        else match AssignmentOf(hash, d, current.destinationCellKey)
          case Err(e) => Refuse(e)
          case Ok(destination) =>
            match ResolveGeneration(submitted.destinationAssignmentGeneration, submitted.destinationFencingToken,
              destination)
            case None => Refuse(TransferConflict(current.transferId))
            case Some(generation) =>
              var proof := submitted.(destinationAssignmentGeneration := generation);
              if proof.quarantineReceiptHash != receiptHash then Refuse(TransferConflict(transferId))
              else if current.phase.Quarantined? && current.quarantineReceiptHash == Some(receiptHash) then
                if current.destinationQuarantineProof == Some(proof) then Keep(current)
                  else Refuse(TransferConflict(transferId))
              else if !current.phase.Prepared? || current.quarantineReceiptHash.Some?
                || current.sourcePrepareProof.None? then
                Refuse(TransferConflict(transferId))
              else if !ValidHash(proof.destinationEventHash) || !ValidHash(proof.destinationWorldHash)
                then Refuse(InvalidDirectory)
              else if !QuarantineProofBinds(current, proof) then Refuse(TransferConflict(current.transferId))
              else if !HistoricalAuthority(proof.destinationAssignmentGeneration, proof.destinationFencingToken,
                destination) then
                Refuse(InvalidDirectory)
              else
                var after := current.(phase := Quarantined, quarantineReceiptHash := Some(receiptHash),
                    destinationQuarantineProof := Some(proof));
                Install(WithTransfer(d, after, transferId), after)
  }

  /** The placement a transfer expects while its aggregate is still at the source. */
  predicate StillPreparing(p: AggregatePlacementRecord, t: CellTransferRecord, transferId: string) {
    && p.state.Preparing? && p.cellId == t.sourceCellId
    && p.placementGeneration == t.priorPlacementGeneration && p.activeTransferId == Some(transferId)
  }

  /** The assignment guard of `commit_transfer`. */
  predicate AssignmentsCurrent(t: CellTransferRecord, source: CellAssignmentRecord, destination: CellAssignmentRecord) {
    && source.state.Assigned? && destination.state.Assigned?
    && source.assignmentGeneration >= t.sourceAssignmentGeneration
    && destination.assignmentGeneration >= t.destinationAssignmentGeneration
  }

  function CommitPlan(hash: CellHash, d: Document, transferId: string, expectedPrior: u64): Plan<CellTransferRecord> {
    match TransferOf(d, transferId)
    case Err(e) => Refuse(e)
    case Ok(current) =>
      if (current.phase.Committed? || current.phase.Imported? || current.phase.Finalized?)
        && current.priorPlacementGeneration == expectedPrior then
        Keep(current)
      else if || !current.phase.Quarantined? || current.priorPlacementGeneration != expectedPrior
        || current.quarantineReceiptHash.None?
              || current.sourcePrepareProof.None? || current.destinationQuarantineProof.None?
      then Refuse(TransferConflict(transferId))
      else match AssignmentOf(hash, d, current.sourceCellKey)
        case Err(e) => Refuse(e)
        case Ok(source) =>
          match AssignmentOf(hash, d, current.destinationCellKey)
          case Err(e) => Refuse(e)
          case Ok(destination) =>
            if !AssignmentsCurrent(current, source, destination) then Refuse(TransferConflict(transferId))
            else match PlacementOf(d, current.aggregateId)
              case Err(e) => Refuse(e)
              case Ok(p) =>
                if !StillPreparing(p, current, transferId) then Refuse(TransferConflict(transferId))
                else
                  var moved := p.(cellKey := current.destinationCellKey, cellId := current.destinationCellId,
                                  placementGeneration := current.resultingPlacementGeneration, state := InTransit);
                  var after := current.(phase := Committed);
                  Install(WithTransfer(WithPlacement(d, moved, current.aggregateId), after, transferId), after)
  }

  function ImportPlan(hash: CellHash, d: Document, transferId: string,
      submitted: ImportProof): Plan<CellTransferRecord> {
    match TransferOf(d, transferId)
    case Err(e) => Refuse(e)
    case Ok(current) =>
      match AssignmentOf(hash, d, current.destinationCellKey)
      case Err(e) => Refuse(e)
      case Ok(destination) =>
        match ResolveGeneration(submitted.destinationAssignmentGeneration, submitted.destinationFencingToken,
          destination)
        case None => Refuse(TransferConflict(current.transferId))
        case Some(generation) =>
          var proof := submitted.(destinationAssignmentGeneration := generation);
          if current.phase.Imported? || current.phase.Finalized? then
            if current.importProof == Some(proof) then Keep(current) else Refuse(TransferConflict(transferId))
          else match PlacementOf(d, current.aggregateId)
            case Err(e) => Refuse(e)
            case Ok(p) =>
              if || !current.phase.Committed? || !p.state.InTransit? || p.cellId != current.destinationCellId
                 || p.placementGeneration != current.resultingPlacementGeneration
                   || p.activeTransferId != Some(transferId)
              then Refuse(TransferConflict(transferId))
              else if !ValidHash(proof.destinationEventHash) || !ValidHash(proof.destinationWorldHash)
                then Refuse(InvalidDirectory)
              else if !ImportProofBinds(current, proof) then Refuse(TransferConflict(current.transferId))
              else if !HistoricalAuthority(proof.destinationAssignmentGeneration, proof.destinationFencingToken,
                destination) then
                Refuse(InvalidDirectory)
              else
                var landed := p.(state := Resident, activeTransferId := None);
                var after := current.(phase := Imported, importProof := Some(proof));
                Install(WithTransfer(WithPlacement(d, landed, current.aggregateId), after, transferId), after)
  }

  function FinalizePlan(hash: CellHash, d: Document, transferId: string,
      submitted: FinalizationProof): Plan<CellTransferRecord> {
    match TransferOf(d, transferId)
    case Err(e) => Refuse(e)
    case Ok(current) =>
      match AssignmentOf(hash, d, current.sourceCellKey)
      case Err(e) => Refuse(e)
      case Ok(source) =>
        match ResolveGeneration(submitted.sourceAssignmentGeneration, submitted.sourceFencingToken, source)
        case None => Refuse(TransferConflict(current.transferId))
        case Some(generation) =>
          var proof := submitted.(sourceAssignmentGeneration := generation);
          if current.phase.Finalized? then
            if current.finalizationProof == Some(proof) then Keep(current) else Refuse(TransferConflict(transferId))
          else if !current.phase.Imported? then Refuse(TransferConflict(transferId))
          else match PlacementOf(d, current.aggregateId)
            case Err(e) => Refuse(e)
            case Ok(p) =>
              if || !p.state.Resident? || p.cellId != current.destinationCellId
                 || p.placementGeneration != current.resultingPlacementGeneration
              then Refuse(TransferConflict(transferId))
              else if !ValidHash(proof.sourceEventHash) || !ValidHash(proof.sourceWorldHash)
                then Refuse(InvalidDirectory)
              else if !FinalizationProofBinds(current, proof) then Refuse(TransferConflict(current.transferId))
              else if !HistoricalAuthority(proof.sourceAssignmentGeneration, proof.sourceFencingToken, source) then
                Refuse(InvalidDirectory)
              else
                var after := current.(phase := Finalized, finalizationProof := Some(proof));
                Install(WithTransfer(d, after, transferId), after)
  }

  function RequestAbortPlan(d: Document, transferId: string): Plan<CellTransferRecord> {
    match TransferOf(d, transferId)
    case Err(e) => Refuse(e)
    case Ok(current) =>
      if current.phase.Aborting? || current.phase.Aborted? then Keep(current)
      else if !current.phase.Prepared? && !current.phase.Quarantined? then Refuse(TransferConflict(transferId))
      else match PlacementOf(d, current.aggregateId)
        case Err(e) => Refuse(e)
        case Ok(p) =>
          if !StillPreparing(p, current, transferId) then Refuse(TransferConflict(transferId))
          else
            var after := current.(phase := Aborting);
            Install(WithTransfer(d, after, transferId), after)
  }

  function AbortProofFor(t: CellTransferRecord, role: AbortRole): Option<AbortProof> {
    if role.Source? then t.sourceAbortProof else t.destinationAbortProof
  }

  function AbortCleanupPlan(hash: CellHash, d: Document, transferId: string,
      submitted: AbortProof): Plan<CellTransferRecord> {
    match TransferOf(d, transferId)
    case Err(e) => Refuse(e)
    case Ok(current) =>
      if !current.phase.Aborting? then Refuse(TransferConflict(transferId))
      else match AssignmentOf(hash, d, if submitted.role.Source? then current.sourceCellKey
        else current.destinationCellKey)
        case Err(e) => Refuse(e)
        case Ok(cell) =>
          match ResolveGeneration(submitted.assignmentGeneration, submitted.fencingToken, cell)
          case None => Refuse(TransferConflict(current.transferId))
          case Some(generation) =>
            var proof := submitted.(assignmentGeneration := generation);
            if !ValidHash(proof.eventHash) || !ValidHash(proof.worldHash) then Refuse(InvalidDirectory)
            else if !AbortProofBinds(current, proof) then Refuse(TransferConflict(current.transferId))
            else if AbortProofFor(current, proof.role).Some? then
              if AbortProofFor(current, proof.role).value == proof then Keep(current)
                else Refuse(TransferConflict(transferId))
            else if !HistoricalAuthority(proof.assignmentGeneration, proof.fencingToken, cell)
              then Refuse(InvalidDirectory)
            else
              var after := if proof.role.Source? then current.(sourceAbortProof := Some(proof))
                  else current.(destinationAbortProof := Some(proof));
              Install(WithTransfer(d, after, transferId), after)
  }

  function FinalizeAbortPlan(d: Document, transferId: string): Plan<CellTransferRecord> {
    match TransferOf(d, transferId)
    case Err(e) => Refuse(e)
    case Ok(current) =>
      if current.phase.Aborted? then Keep(current)
      else if !current.phase.Aborting? || current.sourceAbortProof.None? || current.destinationAbortProof.None? then
        Refuse(TransferConflict(transferId))
      else match PlacementOf(d, current.aggregateId)
        case Err(e) => Refuse(e)
        case Ok(p) =>
          if !StillPreparing(p, current, transferId) then Refuse(TransferConflict(transferId))
          else
            var released := p.(state := Resident, activeTransferId := None);
            var after := current.(phase := Aborted);
            Install(WithTransfer(WithPlacement(d, released, current.aggregateId), after, transferId), after)
  }
}
