/** The directory object: one field holding the installed document, replaced as a whole. Every
    method is the guarded edit of its plan, followed by one write that may fail. */
module LocalCellDirectory {
  import opened Prelude
  import opened Address
  import opened CellDirectory
  import opened DirectoryInvariant
  import opened DirectorySteps
  import Runs = DirectoryRuns

  /** A proof cell as a fresh directory holds it: asleep and without history. */
  function FreshAssignment(hash: CellHash, key: CellKey): CellAssignmentRecord {
    CellAssignmentRecord(key, hash(key), 0, 0, map[], Sleeping, None)
  }

  predicate ProofCell(manifest: Manifest, key: CellKey) {
    ValidCellKey(key) && key.universeId == manifest.universeId
  }

  predicate TwoProofCells(hash: CellHash, manifest: Manifest, cells: seq<CellKey>) {
    |cells| == 2 && hash(cells[0]) != hash(cells[1]) && ProofCell(manifest, cells[0]) && ProofCell(manifest, cells[1])
  }

  function Expected(hash: CellHash, x: CellKey, y: CellKey): map<CellId, CellAssignmentRecord> {
    map[hash(x) := FreshAssignment(hash, x), hash(y) := FreshAssignment(hash, y)]
  }

  /** `canonical_assignments`: exactly two distinct cells of the universe, both fresh. */
  method CanonicalAssignments(hash: CellHash, manifest: Manifest, cells: seq<CellKey>)
    returns (r: Result<map<CellId, CellAssignmentRecord>, DirectoryError>)
    ensures r.Ok? <==> TwoProofCells(hash, manifest, cells)
    ensures r.Ok? ==> forall k | 0 <= k < |cells| ::
              ValidCellKey(cells[k]) && cells[k].universeId == manifest.universeId && hash(cells[k]) in r.value
    ensures r.Err? ==> r.error == InvalidDirectory
    ensures r.Ok? ==> r.value == Expected(hash, cells[0], cells[1])
  {
    hide ValidCellKey;
    var assignments: map<CellId, CellAssignmentRecord> := map[];
    for i := 0 to |cells|
      invariant forall k | 0 <= k < i :: ProofCell(manifest, cells[k])
      invariant forall k | 0 <= k < i ::
        hash(cells[k]) in assignments && assignments[hash(cells[k])] == FreshAssignment(hash, cells[k])
      invariant forall j, k | 0 <= j < k < i :: hash(cells[j]) != hash(cells[k])
      invariant |assignments| == i
      invariant i == 2 ==> assignments.Keys == {hash(cells[0]), hash(cells[1])}
      invariant i == 1 ==> assignments.Keys == {hash(cells[0])}
    {
      if !ProofCell(manifest, cells[i]) { return Err(InvalidDirectory); }
      var id := hash(cells[i]);
      if id in assignments { return Err(InvalidDirectory); }
      assignments := assignments[id := FreshAssignment(hash, cells[i])];
    }
    if |assignments| != 2 { return Err(InvalidDirectory); }
    r := Ok(assignments);
  }

  /** Canonical assignments are a setting in which the directory's theorems hold. */
  lemma CanonicalSetting(hash: CellHash, manifest: Manifest, x: CellKey, y: CellKey)
    requires Injective(hash) && ProofCell(manifest, x) && ProofCell(manifest, y)
    ensures var s := Setting(hash, manifest, Expected(hash, x, y));
            ValidSetting(s) && Runs.FreshCells(s)
  {
    hide ValidCellKey;
  }

  class LocalCellDirectory {
    const setting: Setting
    var document: Document

    constructor (setting: Setting, document: Document)
      ensures this.setting == setting && this.document == document
    {
      this.setting := setting;
      this.document := document;
    }

    /** The state every step keeps. */
    ghost predicate Valid()
      reads this
    {
      ValidSetting(setting) && Inv(setting, document)
    }

    /** Opening: the stored document when it passes the validator, a fresh one when none is stored.
        A stored document that some run left opens into a state from which runs go on. */
    static method Open(hash: CellHash, manifest: Manifest, cells: seq<CellKey>, stored: Option<Document>, durable: bool)
      returns (r: Result<LocalCellDirectory, DirectoryError>)
      ensures r.Ok? ==> fresh(r.value) && r.value.setting.hash == hash && r.value.setting.manifest == manifest
      ensures r.Ok? <==> && TwoProofCells(hash, manifest, cells)
                         && if stored.Some?
                           then ValidDocument(stored.value, manifest, Expected(hash, cells[0], cells[1])) else durable
      ensures r.Ok? ==> r.value.setting.expected == Expected(hash, cells[0], cells[1])
      ensures r.Err? ==>
          r.error == if TwoProofCells(hash, manifest, cells) && stored.None? then Io else InvalidDirectory
      ensures r.Ok? && stored.Some? ==> r.value.document == stored.value
      ensures r.Ok? && stored.None? ==> r.value.document == Runs.InitialDocument(manifest, r.value.setting.expected)
      ensures r.Ok? && Injective(hash) && (stored.Some? ==> Inv(r.value.setting, stored.value)) ==> r.value.Valid()
    {
      hide ProofCell, ValidDocument, Inv;
      var canonical := CanonicalAssignments(hash, manifest, cells);
      if canonical.Err? { return Err(canonical.error); }
      var expected := canonical.value;
      var document: Document;
      if stored.Some? {
        document := stored.value;
        if !ValidDocument(document, manifest, expected) { return Err(InvalidDirectory); }
      } else {
        document := Runs.InitialDocument(manifest, expected);
        if !durable { return Err(Io); }
      }
      if Injective(hash) {
        CanonicalSetting(hash, manifest, cells[0], cells[1]);
        Runs.InitialHolds(Setting(hash, manifest, expected));
      }
      var directory := new LocalCellDirectory(Setting(hash, manifest, expected), document);
      r := Ok(directory);
    }

    /** The revision bump and the atomic write. */
    method CommitDocument(next: Document, durable: bool) returns (error: Option<DirectoryError>)
      modifies this
      ensures (document, error) == Commit(old(document), next, durable)
    {
      if document.directoryRevision == U64_MAX { return Some(DirectoryRevisionExhausted); }
      if !durable { return Some(Io); }
      document := next.(directoryRevision := document.directoryRevision + 1);
      error := None;
    }

    /** Installs an edited copy and returns the edited record. */
    method Publish<R>(next: Document, record: R, durable: bool) returns (r: Result<R, DirectoryError>)
      modifies this
      ensures (document, r) == Finish(old(document), Install(next, record), durable)
    {
      var error := CommitDocument(next, durable);
      r := if error.Some? then Err(error.value) else Ok(record);
    }

    method Claim(key: CellKey, expected: u64, holderId: string, fence: u64, durable: bool)
        returns (r: Result<CellAssignmentRecord, DirectoryError>)
      modifies this
      ensures (document, r)
          == Finish(old(document), ClaimPlan(setting.hash, old(document), key, expected, holderId, fence), durable)
      ensures old(Valid()) ==> Valid()
    {
      hide Inv, ValidSetting, ValidCellKey, ValidStableId, ValidHash;
      if !ValidStableId(holderId) { return Err(InvalidDirectory); }
      if fence == 0 { return Err(InvalidDirectory); }
      var found := AssignmentOf(setting.hash, document, key);
      if found.Err? { return Err(found.error); }
      var assignment := found.value;
      if assignment.assignmentGeneration != expected || !assignment.state.Sleeping? || assignment.holderId.Some? {
        return Err(AssignmentConflict(setting.hash(key)));
      }
      if assignment.assignmentGeneration == U64_MAX { return Err(AssignmentGenerationExhausted(assignment.cellId)); }
      assignment := assignment.(assignmentGeneration := assignment.assignmentGeneration + 1);
      assignment := assignment.(state := Assigned, holderId := Some(holderId));
      if fence <= assignment.authorityFencingToken { return Err(AssignmentConflict(setting.hash(key))); }
      assignment := assignment.(authorityFencingToken := fence,
                                fencingHistory := assignment.fencingHistory[assignment.assignmentGeneration := fence]);
      r := Publish(WithAssignment(document, assignment, setting.hash(key)), assignment, durable);
      if old(Valid()) {
        Runs.StepKeeps(setting, old(document), Runs.Event(Runs.Claim(key, expected, holderId, fence), durable));
      }
    }

    method Release(key: CellKey, expected: u64, holderId: string, durable: bool)
        returns (r: Result<CellAssignmentRecord, DirectoryError>)
      modifies this
      ensures (document, r)
          == Finish(old(document), ReleasePlan(setting.hash, old(document), key, expected, holderId), durable)
      ensures old(Valid()) ==> Valid()
    {
      hide Inv, ValidSetting, ValidCellKey, ValidStableId, ValidHash;
      if !ValidStableId(holderId) { return Err(InvalidDirectory); }
      var found := AssignmentOf(setting.hash, document, key);
      if found.Err? { return Err(found.error); }
      var assignment := found.value;
      if assignment.state.Sleeping? && assignment.assignmentGeneration == expected && assignment.holderId.None? {
        return Ok(assignment);
      }
      if assignment.assignmentGeneration != expected || !assignment.state.Assigned?
        || assignment.holderId != Some(holderId) {
        return Err(AssignmentConflict(setting.hash(key)));
      }
      if Pinned(document, setting.hash(key)) { return Err(AssignmentConflict(setting.hash(key))); }
      assignment := assignment.(state := Sleeping);
      assignment := assignment.(holderId := None);
      r := Publish(WithAssignment(document, assignment, setting.hash(key)), assignment, durable);
      if old(Valid()) {
        Runs.StepKeeps(setting, old(document), Runs.Event(Runs.Release(key, expected, holderId), durable));
      }
    }

    method RecoverAssignment(key: CellKey, expected: u64, holderId: string, fence: u64, durable: bool)
        returns (r: Result<CellAssignmentRecord, DirectoryError>)
      modifies this
      ensures (document, r)
          == Finish(old(document), RecoverPlan(setting.hash, old(document), key, expected, holderId, fence), durable)
      ensures old(Valid()) ==> Valid()
    {
      hide Inv, ValidSetting, ValidCellKey, ValidStableId, ValidHash;
      if !ValidStableId(holderId) { return Err(InvalidDirectory); }
      var found := AssignmentOf(setting.hash, document, key);
      if found.Err? { return Err(found.error); }
      var assignment := found.value;
      if assignment.assignmentGeneration != expected || !assignment.state.Assigned? {
        return Err(AssignmentConflict(setting.hash(key)));
      }
      if assignment.assignmentGeneration == U64_MAX { return Err(AssignmentGenerationExhausted(assignment.cellId)); }
      assignment := assignment.(assignmentGeneration := assignment.assignmentGeneration + 1);
      if fence <= assignment.authorityFencingToken { return Err(AssignmentConflict(setting.hash(key))); }
      assignment := assignment.(authorityFencingToken := fence,
                                fencingHistory := assignment.fencingHistory[assignment.assignmentGeneration := fence]);
      assignment := assignment.(holderId := Some(holderId));
      r := Publish(WithAssignment(document, assignment, setting.hash(key)), assignment, durable);
      if old(Valid()) {
        Runs.StepKeeps(setting, old(document), Runs.Event(Runs.Recover(key, expected, holderId, fence), durable));
      }
    }

    method RegisterPlacement(aggregateId: string, kind: MobileAggregateKind, key: CellKey, durable: bool)
        returns (r: Result<AggregatePlacementRecord, DirectoryError>)
      modifies this
      ensures (document, r)
          == Finish(old(document), RegisterPlan(setting.hash, old(document), aggregateId, kind, key), durable)
      ensures old(Valid()) ==> Valid()
    {
      hide Inv, ValidSetting, ValidCellKey, ValidStableId, ValidHash;
      if !ValidStableId(aggregateId) { return Err(InvalidDirectory); }
      var found := AssignmentOf(setting.hash, document, key);
      if found.Err? { return Err(found.error); }
      var requested := AggregatePlacementRecord(aggregateId, kind, key, found.value.cellId, 1, Resident, None);
      if aggregateId in document.placements {
        if document.placements[aggregateId] == requested { return Ok(requested); }
        return Err(TransferConflict(aggregateId));
      }
      r := Publish(WithPlacement(document, requested, aggregateId), requested, durable);
      if old(Valid()) {
        Runs.StepKeeps(setting, old(document), Runs.Event(Runs.Register(aggregateId, kind, key), durable));
      }
    }

    method PrepareTransfer(aggregateId: string, expected: u64, transferId: string, destinationKey: CellKey,
        packageHash: string, durable: bool) returns (r: Result<CellTransferRecord, DirectoryError>)
      modifies this
      ensures (document, r)
          == Finish(old(document), PreparePlan(setting.hash, old(document), aggregateId, expected, transferId,
          destinationKey, packageHash), durable)
      ensures old(Valid()) ==> Valid()
    {
      hide Inv, ValidSetting, ValidCellKey, ValidStableId, ValidHash;
      if !ValidStableId(aggregateId) || !ValidStableId(transferId) { return Err(InvalidDirectory); }
      if !ValidHash(packageHash) { return Err(InvalidDirectory); }
      if transferId in document.transfers {
        var existing := document.transfers[transferId];
        if && existing.aggregateId == aggregateId && existing.destinationCellKey == destinationKey
           && existing.priorPlacementGeneration == expected && existing.packageHash == packageHash {
          return Ok(existing);
        }
        return Err(TransferConflict(transferId));
      }
      if aggregateId !in document.placements { return Err(UnknownAggregate(aggregateId)); }
      var placement := document.placements[aggregateId];
      var source := AssignmentOf(setting.hash, document, placement.cellKey);
      if source.Err? { return Err(source.error); }
      var destination := AssignmentOf(setting.hash, document, destinationKey);
      if destination.Err? { return Err(destination.error); }
      if !source.value.state.Assigned? || !destination.value.state.Assigned? {
        return Err(TransferConflict(transferId));
      }
      if || !placement.state.Resident? || placement.activeTransferId.Some? || placement.placementGeneration != expected
         || placement.cellId == destination.value.cellId {
        return Err(TransferConflict(transferId));
      }
      if placement.placementGeneration == U64_MAX { return Err(PlacementGenerationExhausted(aggregateId)); }
      var requested := NewTransfer(placement, aggregateId, transferId, source.value, destination.value, destinationKey,
          packageHash);
      var next := document;
      next := WithPlacement(next, placement.(state := Preparing, activeTransferId := Some(transferId)), aggregateId);
      next := WithTransfer(next, requested, transferId);
      r := Publish(next, requested, durable);
      if old(Valid()) {
        Runs.StepKeeps(setting, old(document), Runs.Event(Runs.Prepare(aggregateId, expected, transferId,
          destinationKey, packageHash), durable));
      }
    }

    method RecordSourcePrepared(transferId: string, submitted: PrepareProof, durable: bool)
        returns (r: Result<CellTransferRecord, DirectoryError>)
      modifies this
      ensures (document, r)
          == Finish(old(document), SourcePreparedPlan(setting.hash, old(document), transferId, submitted), durable)
      ensures old(Valid()) ==> Valid()
    {
      hide Inv, ValidSetting, ValidCellKey, ValidStableId, ValidHash, AssignmentOf, ResolveGeneration,
          HistoricalAuthority, PrepareProofBinds;
      if transferId !in document.transfers { return Err(UnknownTransfer(transferId)); }
      var current := document.transfers[transferId];
      var source := AssignmentOf(setting.hash, document, current.sourceCellKey);
      if source.Err? { return Err(source.error); }
      var generation := ResolveGeneration(submitted.sourceAssignmentGeneration, submitted.sourceFencingToken,
          source.value);
      if generation.None? { return Err(TransferConflict(current.transferId)); }
      var proof := submitted.(sourceAssignmentGeneration := generation.value);
      if !ValidHash(proof.sourceEventHash) || !ValidHash(proof.sourceWorldHash) { return Err(InvalidDirectory); }
      if !PrepareProofBinds(current, proof) { return Err(TransferConflict(current.transferId)); }
      if current.sourcePrepareProof.Some? {
        if current.sourcePrepareProof.value == proof { return Ok(current); }
        return Err(TransferConflict(transferId));
      }
      if !current.phase.Prepared? { return Err(TransferConflict(transferId)); }
      if !HistoricalAuthority(proof.sourceAssignmentGeneration, proof.sourceFencingToken, source.value) {
        return Err(InvalidDirectory);
      }
      var transfer := current.(sourcePrepareProof := Some(proof));
      r := Publish(WithTransfer(document, transfer, transferId), transfer, durable);
      if old(Valid()) {
        Runs.StepKeeps(setting, old(document), Runs.Event(Runs.RecordSourcePrepared(transferId, submitted), durable));
      }
    }

    method RecordQuarantine(transferId: string, packageHash: string, receiptHash: string, submitted: QuarantineProof,
        durable: bool) returns (r: Result<CellTransferRecord, DirectoryError>)
      modifies this
      ensures (document, r)
          == Finish(old(document), QuarantinePlan(setting.hash, old(document), transferId, packageHash, receiptHash,
          submitted), durable)
      ensures old(Valid()) ==> Valid()
    {
      hide Inv, ValidSetting, ValidCellKey, ValidStableId, ValidHash, AssignmentOf, ResolveGeneration,
          HistoricalAuthority, QuarantineProofBinds;
      if !ValidHash(packageHash) || !ValidHash(receiptHash) { return Err(InvalidDirectory); }
      if transferId !in document.transfers { return Err(UnknownTransfer(transferId)); }
      var current := document.transfers[transferId];
      if current.packageHash != packageHash { return Err(TransferConflict(transferId)); }
      var destination := AssignmentOf(setting.hash, document, current.destinationCellKey);
      if destination.Err? { return Err(destination.error); }
      var generation := ResolveGeneration(submitted.destinationAssignmentGeneration, submitted.destinationFencingToken,
          destination.value);
      if generation.None? { return Err(TransferConflict(current.transferId)); }
      var proof := submitted.(destinationAssignmentGeneration := generation.value);
      if proof.quarantineReceiptHash != receiptHash { return Err(TransferConflict(transferId)); }
      if current.phase.Quarantined? && current.quarantineReceiptHash == Some(receiptHash) {
        if current.destinationQuarantineProof == Some(proof) { return Ok(current); }
        return Err(TransferConflict(transferId));
      }
      if !current.phase.Prepared? || current.quarantineReceiptHash.Some? || current.sourcePrepareProof.None? {
        return Err(TransferConflict(transferId));
      }
      if !ValidHash(proof.destinationEventHash) || !ValidHash(proof.destinationWorldHash) {
        return Err(InvalidDirectory);
      }
      if !QuarantineProofBinds(current, proof) { return Err(TransferConflict(current.transferId)); }
      if !HistoricalAuthority(proof.destinationAssignmentGeneration, proof.destinationFencingToken, destination.value) {
        return Err(InvalidDirectory);
      }
      var transfer := current.(phase := Quarantined);
      transfer := transfer.(quarantineReceiptHash := Some(receiptHash));
      transfer := transfer.(destinationQuarantineProof := Some(proof));
      r := Publish(WithTransfer(document, transfer, transferId), transfer, durable);
      if old(Valid()) {
        Runs.StepKeeps(setting, old(document), Runs.Event(Runs.RecordQuarantine(transferId, packageHash, receiptHash,
          submitted), durable));
      }
    }

    method CommitTransfer(transferId: string, expectedPrior: u64, durable: bool)
        returns (r: Result<CellTransferRecord, DirectoryError>)
      modifies this
      ensures (document, r)
          == Finish(old(document), CommitPlan(setting.hash, old(document), transferId, expectedPrior), durable)
      ensures old(Valid()) ==> Valid()
    {
      hide Inv, ValidSetting, ValidCellKey, ValidStableId, ValidHash, AssignmentOf;
      if transferId !in document.transfers { return Err(UnknownTransfer(transferId)); }
      var current := document.transfers[transferId];
      if (current.phase.Committed? || current.phase.Imported? || current.phase.Finalized?)
        && current.priorPlacementGeneration == expectedPrior {
        return Ok(current);
      }
      if || !current.phase.Quarantined? || current.priorPlacementGeneration != expectedPrior
        || current.quarantineReceiptHash.None?
         || current.sourcePrepareProof.None? || current.destinationQuarantineProof.None? {
        return Err(TransferConflict(transferId));
      }
      var source := AssignmentOf(setting.hash, document, current.sourceCellKey);
      if source.Err? { return Err(source.error); }
      var destination := AssignmentOf(setting.hash, document, current.destinationCellKey);
      if destination.Err? { return Err(destination.error); }
      if !AssignmentsCurrent(current, source.value, destination.value) { return Err(TransferConflict(transferId)); }
      if current.aggregateId !in document.placements { return Err(UnknownAggregate(current.aggregateId)); }
      var placement := document.placements[current.aggregateId];
      if !StillPreparing(placement, current, transferId) { return Err(TransferConflict(transferId)); }
      placement := placement.(cellKey := current.destinationCellKey);
      placement := placement.(cellId := current.destinationCellId);
      placement := placement.(placementGeneration := current.resultingPlacementGeneration);
      placement := placement.(state := InTransit);
      var transfer := current.(phase := Committed);
      var next := WithPlacement(document, placement, current.aggregateId);
      next := WithTransfer(next, transfer, transferId);
      r := Publish(next, transfer, durable);
      if old(Valid()) {
        Runs.StepKeeps(setting, old(document), Runs.Event(Runs.CommitTransfer(transferId, expectedPrior), durable));
      }
    }

    method RecordImported(transferId: string, submitted: ImportProof, durable: bool)
        returns (r: Result<CellTransferRecord, DirectoryError>)
      modifies this
      ensures (document, r)
          == Finish(old(document), ImportPlan(setting.hash, old(document), transferId, submitted), durable)
      ensures old(Valid()) ==> Valid()
    {
      hide Inv, ValidSetting, ValidCellKey, ValidStableId, ValidHash, AssignmentOf, ResolveGeneration,
          HistoricalAuthority, ImportProofBinds;
      if transferId !in document.transfers { return Err(UnknownTransfer(transferId)); }
      var current := document.transfers[transferId];
      var destination := AssignmentOf(setting.hash, document, current.destinationCellKey);
      if destination.Err? { return Err(destination.error); }
      var generation := ResolveGeneration(submitted.destinationAssignmentGeneration, submitted.destinationFencingToken,
          destination.value);
      if generation.None? { return Err(TransferConflict(current.transferId)); }
      var proof := submitted.(destinationAssignmentGeneration := generation.value);
      if current.phase.Imported? || current.phase.Finalized? {
        if current.importProof == Some(proof) { return Ok(current); }
        return Err(TransferConflict(transferId));
      }
      if current.aggregateId !in document.placements { return Err(UnknownAggregate(current.aggregateId)); }
      var placement := document.placements[current.aggregateId];
      if || !current.phase.Committed? || !placement.state.InTransit? || placement.cellId != current.destinationCellId
         || placement.placementGeneration != current.resultingPlacementGeneration
           || placement.activeTransferId != Some(transferId) {
        return Err(TransferConflict(transferId));
      }
      if !ValidHash(proof.destinationEventHash) || !ValidHash(proof.destinationWorldHash) {
        return Err(InvalidDirectory);
      }
      if !ImportProofBinds(current, proof) { return Err(TransferConflict(current.transferId)); }
      if !HistoricalAuthority(proof.destinationAssignmentGeneration, proof.destinationFencingToken, destination.value) {
        return Err(InvalidDirectory);
      }
      placement := placement.(state := Resident);
      placement := placement.(activeTransferId := None);
      var transfer := current.(phase := Imported);
      transfer := transfer.(importProof := Some(proof));
      var next := WithPlacement(document, placement, current.aggregateId);
      next := WithTransfer(next, transfer, transferId);
      r := Publish(next, transfer, durable);
      if old(Valid()) {
        Runs.StepKeeps(setting, old(document), Runs.Event(Runs.RecordImported(transferId, submitted), durable));
      }
    }

    method FinalizeTransfer(transferId: string, submitted: FinalizationProof, durable: bool)
        returns (r: Result<CellTransferRecord, DirectoryError>)
      modifies this
      ensures (document, r)
          == Finish(old(document), FinalizePlan(setting.hash, old(document), transferId, submitted), durable)
      ensures old(Valid()) ==> Valid()
    {
      hide Inv, ValidSetting, ValidCellKey, ValidStableId, ValidHash, AssignmentOf, ResolveGeneration,
          HistoricalAuthority, FinalizationProofBinds;
      if transferId !in document.transfers { return Err(UnknownTransfer(transferId)); }
      var current := document.transfers[transferId];
      var source := AssignmentOf(setting.hash, document, current.sourceCellKey);
      if source.Err? { return Err(source.error); }
      var generation := ResolveGeneration(submitted.sourceAssignmentGeneration, submitted.sourceFencingToken,
          source.value);
      if generation.None? { return Err(TransferConflict(current.transferId)); }
      var proof := submitted.(sourceAssignmentGeneration := generation.value);
      if current.phase.Finalized? {
        if current.finalizationProof == Some(proof) { return Ok(current); }
        return Err(TransferConflict(transferId));
      }
      if !current.phase.Imported? { return Err(TransferConflict(transferId)); }
      if current.aggregateId !in document.placements { return Err(UnknownAggregate(current.aggregateId)); }
      var placement := document.placements[current.aggregateId];
      if || !placement.state.Resident? || placement.cellId != current.destinationCellId
         || placement.placementGeneration != current.resultingPlacementGeneration {
        return Err(TransferConflict(transferId));
      }
      if !ValidHash(proof.sourceEventHash) || !ValidHash(proof.sourceWorldHash) { return Err(InvalidDirectory); }
      if !FinalizationProofBinds(current, proof) { return Err(TransferConflict(current.transferId)); }
      if !HistoricalAuthority(proof.sourceAssignmentGeneration, proof.sourceFencingToken, source.value) {
        return Err(InvalidDirectory);
      }
      var transfer := current.(phase := Finalized);
      transfer := transfer.(finalizationProof := Some(proof));
      r := Publish(WithTransfer(document, transfer, transferId), transfer, durable);
      if old(Valid()) {
        Runs.StepKeeps(setting, old(document), Runs.Event(Runs.FinalizeTransfer(transferId, submitted), durable));
      }
    }

    method RequestAbort(transferId: string, durable: bool) returns (r: Result<CellTransferRecord, DirectoryError>)
      modifies this
      ensures (document, r) == Finish(old(document), RequestAbortPlan(old(document), transferId), durable)
      ensures old(Valid()) ==> Valid()
    {
      hide Inv, ValidSetting, ValidCellKey, ValidStableId, ValidHash;
      if transferId !in document.transfers { return Err(UnknownTransfer(transferId)); }
      var current := document.transfers[transferId];
      if current.phase.Aborting? || current.phase.Aborted? { return Ok(current); }
      if !current.phase.Prepared? && !current.phase.Quarantined? { return Err(TransferConflict(transferId)); }
      if current.aggregateId !in document.placements { return Err(UnknownAggregate(current.aggregateId)); }
      if !StillPreparing(document.placements[current.aggregateId], current, transferId) {
        return Err(TransferConflict(transferId));
      }
      var transfer := current.(phase := Aborting);
      r := Publish(WithTransfer(document, transfer, transferId), transfer, durable);
      if old(Valid()) { Runs.StepKeeps(setting, old(document), Runs.Event(Runs.RequestAbort(transferId), durable)); }
    }

    method RecordAbortCleanup(transferId: string, submitted: AbortProof, durable: bool)
        returns (r: Result<CellTransferRecord, DirectoryError>)
      modifies this
      ensures (document, r)
          == Finish(old(document), AbortCleanupPlan(setting.hash, old(document), transferId, submitted), durable)
      ensures old(Valid()) ==> Valid()
    {
      hide Inv, ValidSetting, ValidCellKey, ValidStableId, ValidHash, AssignmentOf, ResolveGeneration,
          HistoricalAuthority, AbortProofBinds;
      if transferId !in document.transfers { return Err(UnknownTransfer(transferId)); }
      var current := document.transfers[transferId];
      if !current.phase.Aborting? { return Err(TransferConflict(transferId)); }
      var cell := AssignmentOf(setting.hash, document, if submitted.role.Source? then current.sourceCellKey
          else current.destinationCellKey);
      if cell.Err? { return Err(cell.error); }
      var generation := ResolveGeneration(submitted.assignmentGeneration, submitted.fencingToken, cell.value);
      if generation.None? { return Err(TransferConflict(current.transferId)); }
      var proof := submitted.(assignmentGeneration := generation.value);
      if !ValidHash(proof.eventHash) || !ValidHash(proof.worldHash) { return Err(InvalidDirectory); }
      if !AbortProofBinds(current, proof) { return Err(TransferConflict(current.transferId)); }
      var existing := AbortProofFor(current, proof.role);
      if existing.Some? {
        if existing.value == proof { return Ok(current); }
        return Err(TransferConflict(transferId));
      }
      if !HistoricalAuthority(proof.assignmentGeneration, proof.fencingToken, cell.value) {
        return Err(InvalidDirectory);
      }
      var transfer := current;
      match proof.role {
        case Source => transfer := transfer.(sourceAbortProof := Some(proof));
        case Destination => transfer := transfer.(destinationAbortProof := Some(proof));
      }
      r := Publish(WithTransfer(document, transfer, transferId), transfer, durable);
      if old(Valid()) {
        Runs.StepKeeps(setting, old(document), Runs.Event(Runs.RecordAbortCleanup(transferId, submitted), durable));
      }
    }

    method FinalizeAbort(transferId: string, durable: bool) returns (r: Result<CellTransferRecord, DirectoryError>)
      modifies this
      ensures (document, r) == Finish(old(document), FinalizeAbortPlan(old(document), transferId), durable)
      ensures old(Valid()) ==> Valid()
    {
      hide Inv, ValidSetting, ValidCellKey, ValidStableId, ValidHash;
      if transferId !in document.transfers { return Err(UnknownTransfer(transferId)); }
      var current := document.transfers[transferId];
      if current.phase.Aborted? { return Ok(current); }
      if !current.phase.Aborting? || current.sourceAbortProof.None? || current.destinationAbortProof.None? {
        return Err(TransferConflict(transferId));
      }
      if current.aggregateId !in document.placements { return Err(UnknownAggregate(current.aggregateId)); }
      var placement := document.placements[current.aggregateId];
      if !StillPreparing(placement, current, transferId) { return Err(TransferConflict(transferId)); }
      placement := placement.(state := Resident);
      placement := placement.(activeTransferId := None);
      var transfer := current.(phase := Aborted);
      var next := WithPlacement(document, placement, current.aggregateId);
      next := WithTransfer(next, transfer, transferId);
      r := Publish(next, transfer, durable);
      if old(Valid()) { Runs.StepKeeps(setting, old(document), Runs.Event(Runs.FinalizeAbort(transferId), durable)); }
    }
  }
}
