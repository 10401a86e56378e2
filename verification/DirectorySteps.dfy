/** Every step of the directory keeps the invariant. */
module DirectorySteps {
  import opened Prelude
  import opened Address
  import opened CellDirectory
  import opened DirectoryInvariant

  /** With an injective hash a found assignment is the one of the key asked for. */
  lemma AssignmentFound(s: Setting, d: Document, key: CellKey)
    requires ValidSetting(s) && AssignmentsHold(s, d) && AssignmentOf(s.hash, d, key).Ok?
    ensures var id, a := s.hash(key), AssignmentOf(s.hash, d, key).value;
            && id in d.assignments && a == d.assignments[id] && a.cellId == id && a.cellKey == key
            && s.expected[id].cellKey == key && ValidAssignment(id, key, a)
  {
    hide ValidCellKey, ValidHistory;
    var id := s.hash(key);
    assert s.hash(s.expected[id].cellKey) == id;
  }

  /** A stored cell id is found again through its key. */
  lemma AssignmentKnown(s: Setting, d: Document, id: CellId)
    requires ValidSetting(s) && AssignmentsHold(s, d) && id in d.assignments
    ensures AssignmentOf(s.hash, d, d.assignments[id].cellKey) == Ok(d.assignments[id])
    ensures d.assignments[id].cellId == id && s.hash(d.assignments[id].cellKey) == id
  {
    hide ValidCellKey, ValidHistory;
    assert ValidAssignment(id, s.expected[id].cellKey, d.assignments[id]);
  }

  lemma ClaimKeeps(s: Setting, d: Document, key: CellKey, expected: u64, holderId: string, fence: u64)
    requires ValidSetting(s) && Inv(s, d) && ClaimPlan(s.hash, d, key, expected, holderId, fence).Install?
    ensures Inv(s, ClaimPlan(s.hash, d, key, expected, holderId, fence).next)
  {
    hide Inv, ValidCellKey, ValidStableId, ValidHistory;
    InvParts(s, d);
    AssignmentFound(s, d, key);
    var a := AssignmentOf(s.hash, d, key).value;
    AdvancedIsValid(s, s.hash(key), key, a, holderId, fence);
    AssignmentEditKeeps(s, d, s.hash(key), Advanced(a, holderId, fence));
  }

  lemma RecoverKeeps(s: Setting, d: Document, key: CellKey, expected: u64, holderId: string, fence: u64)
    requires ValidSetting(s) && Inv(s, d) && RecoverPlan(s.hash, d, key, expected, holderId, fence).Install?
    ensures Inv(s, RecoverPlan(s.hash, d, key, expected, holderId, fence).next)
  {
    hide Inv, ValidCellKey, ValidStableId, ValidHistory;
    InvParts(s, d);
    AssignmentFound(s, d, key);
    var a := AssignmentOf(s.hash, d, key).value;
    AdvancedIsValid(s, s.hash(key), key, a, holderId, fence);
    AssignmentEditKeeps(s, d, s.hash(key), Advanced(a, holderId, fence));
  }

  lemma InvParts(s: Setting, d: Document)
    requires Inv(s, d)
    ensures AssignmentsHold(s, d) && PlacementsHold(d) && TransfersHold(d) && LinksHold(d) && Chain(d)
  {
    hide AssignmentsHold, PlacementsHold, TransfersHold, LinksHold, Chain;
  }

  lemma ReleaseKeeps(s: Setting, d: Document, key: CellKey, expected: u64, holderId: string)
    requires ValidSetting(s) && Inv(s, d) && ReleasePlan(s.hash, d, key, expected, holderId).Install?
    ensures Inv(s, ReleasePlan(s.hash, d, key, expected, holderId).next)
  {
    hide Inv, ValidCellKey, ValidStableId, ValidHistory;
    InvParts(s, d);
    AssignmentFound(s, d, key);
    var a := AssignmentOf(s.hash, d, key).value;
    AssignmentEditKeeps(s, d, s.hash(key), a.(state := Sleeping, holderId := None)) by {
      SameHistory(a, a.(state := Sleeping, holderId := None));
    }
  }

  lemma SameHistory(a: CellAssignmentRecord, b: CellAssignmentRecord)
    requires ValidHistory(a) && a.fencingHistory == b.fencingHistory
    requires a.assignmentGeneration == b.assignmentGeneration && a.authorityFencingToken == b.authorityFencingToken
    ensures ValidHistory(b)
  {}

  lemma RegisterKeeps(s: Setting, d: Document, aggregateId: string, kind: MobileAggregateKind, key: CellKey)
    requires ValidSetting(s) && Inv(s, d) && RegisterPlan(s.hash, d, aggregateId, kind, key).Install?
    ensures Inv(s, RegisterPlan(s.hash, d, aggregateId, kind, key).next)
  {
    hide Inv, ValidCellKey, ValidStableId, ValidHistory;
    InvParts(s, d);
    AssignmentFound(s, d, key);
    NewPlacementKeeps(s, d, aggregateId, RegisterPlan(s.hash, d, aggregateId, kind, key).record);
  }

  /** What an accepted prepare was checked for, and what it writes. */
  lemma PrepareShape(s: Setting, d: Document, aggregateId: string, expected: u64, transferId: string,
      destinationKey: CellKey, packageHash: string)
    requires PreparePlan(s.hash, d, aggregateId, expected, transferId, destinationKey, packageHash).Install?
    ensures aggregateId in d.placements && transferId !in d.transfers
    ensures ValidStableId(aggregateId) && ValidStableId(transferId) && ValidHash(packageHash)
    ensures var p, source, destination := d.placements[aggregateId],
        AssignmentOf(s.hash, d, d.placements[aggregateId].cellKey), AssignmentOf(s.hash, d, destinationKey);
            && source.Ok? && destination.Ok? && source.value.state.Assigned? && destination.value.state.Assigned?
            && p.state.Resident? && p.activeTransferId.None? && p.placementGeneration == expected < U64_MAX
            && p.cellId != destination.value.cellId
            && var u := NewTransfer(p, aggregateId, transferId, source.value, destination.value, destinationKey,
              packageHash);
               PreparePlan(s.hash, d, aggregateId, expected, transferId, destinationKey, packageHash)
               == Install(WithTransfer(WithPlacement(d, p.(state := Preparing, activeTransferId := Some(transferId)),
                 aggregateId), u, transferId), u)
  {
    hide AssignmentOf, ValidStableId, ValidHash;
  }

  lemma NewTransferConsistent(d: Document, a: string, id: string, source: CellAssignmentRecord,
      destination: CellAssignmentRecord, packageHash: string)
    requires a in d.placements && ValidPlacement(d.assignments, a, d.placements[a])
    requires source == d.assignments[d.placements[a].cellId] && source.state.Assigned?
        && source.assignmentGeneration != 0
    requires destination.cellId in d.assignments && destination == d.assignments[destination.cellId]
    requires destination.state.Assigned? && destination.assignmentGeneration != 0
    requires d.placements[a].cellId != destination.cellId && d.placements[a].placementGeneration < U64_MAX
    requires ValidStableId(id) && ValidHash(packageHash)
    ensures var p := d.placements[a];
            ConsistentTransfer(WithPlacement(d, p.(state := Preparing, activeTransferId := Some(id)), a), id,
                               NewTransfer(p, a, id, source, destination, destination.cellKey, packageHash))
  {
    hide ValidStableId, ValidHash, ValidHistory;
  }

  lemma PrepareKeeps(s: Setting, d: Document, aggregateId: string, expected: u64, transferId: string,
      destinationKey: CellKey, packageHash: string)
    requires ValidSetting(s) && Inv(s, d)
    requires PreparePlan(s.hash, d, aggregateId, expected, transferId, destinationKey, packageHash).Install?
    ensures Inv(s, PreparePlan(s.hash, d, aggregateId, expected, transferId, destinationKey, packageHash).next)
  {
    PrepareShape(s, d, aggregateId, expected, transferId, destinationKey, packageHash);
    hide Inv, ValidCellKey, ValidStableId, ValidHash, ValidHistory, Chain, TransfersHold, LinksHold, AssignmentsHold,
        PreparePlan, AssignmentOf,
         ValidSetting, ConsistentTransfer;
    InvParts(s, d);
    var p := d.placements[aggregateId];
    CellKnown(d, aggregateId);
    AssignmentFound(s, d, p.cellKey);
    AssignmentFound(s, d, destinationKey);
    AssignmentKnown(s, d, p.cellId);
    assert ValidPlacement(d.assignments, aggregateId, p);
    var source, destination := d.assignments[p.cellId], AssignmentOf(s.hash, d, destinationKey).value;
    NewTransferConsistent(d, aggregateId, transferId, source, destination, packageHash);
    var u := NewTransfer(p, aggregateId, transferId, source, destination, destinationKey, packageHash);
    var q := p.(state := Preparing, activeTransferId := Some(transferId));
    NewTransferKeepsChain(d, aggregateId, q, transferId, u);
    PairEditKeeps(s, d, aggregateId, q, transferId, u);
  }

  /** The facts a step on a stored transfer starts from. */
  lemma TransferStart(s: Setting, d: Document, id: string)
    requires ValidSetting(s) && Inv(s, d) && id in d.transfers
    ensures var t := d.transfers[id];
            && ConsistentTransfer(d, id, t) && TransferNamesRecords(d, t) && t.transferId == id
            && AssignmentOf(s.hash, d, t.sourceCellKey) == Ok(d.assignments[t.sourceCellId])
            && AssignmentOf(s.hash, d, t.destinationCellKey) == Ok(d.assignments[t.destinationCellId])
            && ValidAssignment(t.sourceCellId, t.sourceCellKey, d.assignments[t.sourceCellId])
            && ValidAssignment(t.destinationCellId, t.destinationCellKey, d.assignments[t.destinationCellId])
            && ValidPlacement(d.assignments, t.aggregateId, d.placements[t.aggregateId])
  {
    hide Inv, ConsistentTransfer, ValidCellKey, ValidStableId, ValidHash, ValidHistory, Chain, LinksHold;
    InvParts(s, d);
    var t := d.transfers[id];
    assert ConsistentTransfer(d, id, t);
    TransferFacts(d, id, t);
    AssignmentKnown(s, d, t.sourceCellId);
    AssignmentKnown(s, d, t.destinationCellId);
    assert ValidAssignment(t.sourceCellId, s.expected[t.sourceCellId].cellKey, d.assignments[t.sourceCellId]);
    assert ValidAssignment(t.destinationCellId, s.expected[t.destinationCellId].cellKey,
        d.assignments[t.destinationCellId]);
  }

  lemma SourcePreparedKeeps(s: Setting, d: Document, id: string, submitted: PrepareProof)
    requires ValidSetting(s) && Inv(s, d) && SourcePreparedPlan(s.hash, d, id, submitted).Install?
    ensures Inv(s, SourcePreparedPlan(s.hash, d, id, submitted).next)
  {
    hide Inv, AssignmentOf, ResolveGeneration, ValidHash, ValidStableId, ValidAssignment;
    TransferStart(s, d, id);
    TransferEditKeeps(s, d, id, SourcePreparedPlan(s.hash, d, id, submitted).record);
  }

  lemma QuarantineKeeps(s: Setting, d: Document, id: string, packageHash: string, receiptHash: string,
      submitted: QuarantineProof)
    requires ValidSetting(s) && Inv(s, d) && QuarantinePlan(s.hash, d, id, packageHash, receiptHash, submitted).Install?
    ensures Inv(s, QuarantinePlan(s.hash, d, id, packageHash, receiptHash, submitted).next)
  {
    hide Inv, AssignmentOf, ResolveGeneration, ValidHash, ValidStableId, ValidAssignment;
    TransferStart(s, d, id);
    TransferEditKeeps(s, d, id, QuarantinePlan(s.hash, d, id, packageHash, receiptHash, submitted).record);
  }

  /** A new phase, possibly with an import proof, beside a new placement of the aggregate. */
  lemma PairConsistent(d: Document, id: string, q: AggregatePlacementRecord, u: CellTransferRecord)
    requires id in d.transfers && ConsistentTransfer(d, id, d.transfers[id])
    requires u == d.transfers[id].(phase := u.phase, importProof := u.importProof)
    requires u.importProof == d.transfers[id].importProof
             || (u.importProof.Some? && ImportProofBinds(d.transfers[id], u.importProof.value)
                 && HistoricalAuthority(u.importProof.value.destinationAssignmentGeneration,
                   u.importProof.value.destinationFencingToken,
                                        d.assignments[u.destinationCellId]))
    requires PhaseShape(u) && WeakSourceProofShape(u) && (Terminal(u.phase) || !Terminal(d.transfers[id].phase))
    requires q.aggregateKind == d.placements[u.aggregateId].aggregateKind && PlacementMatches(id, u, q)
    ensures ConsistentTransfer(WithPlacement(d, q, u.aggregateId), id, u)
  {
    hide ValidHash, ValidStableId;
  }

  lemma CommitKeeps(s: Setting, d: Document, id: string, expectedPrior: u64)
    requires ValidSetting(s) && Inv(s, d) && CommitPlan(s.hash, d, id, expectedPrior).Install?
    ensures Inv(s, CommitPlan(s.hash, d, id, expectedPrior).next)
  {
    hide Inv, AssignmentOf, ValidStableId, ValidAssignment, Chain, ConsistentTransfer;
    TransferStart(s, d, id);
    TransferFacts(d, id, d.transfers[id]);
    ShapeFacts(d, id);
    InvParts(s, d);
    var t := d.transfers[id];
    var p := d.placements[t.aggregateId];
    var u := t.(phase := Committed);
    var q := p.(cellKey := t.destinationCellKey, cellId := t.destinationCellId,
                placementGeneration := t.resultingPlacementGeneration, state := InTransit);
    PairConsistent(d, id, q, u);
    ChainGrows(d, t.aggregateId, q, id, u);
    PairEditKeeps(s, d, t.aggregateId, q, id, u);
  }

  lemma ShapeFacts(d: Document, id: string)
    requires id in d.transfers && ConsistentTransfer(d, id, d.transfers[id])
    ensures PhaseShape(d.transfers[id]) && WeakSourceProofShape(d.transfers[id])
  {
    hide ValidHash, ValidStableId, ProofsBound, PhaseShape;
  }

  lemma ImportKeeps(s: Setting, d: Document, id: string, submitted: ImportProof)
    requires ValidSetting(s) && Inv(s, d) && ImportPlan(s.hash, d, id, submitted).Install?
    ensures Inv(s, ImportPlan(s.hash, d, id, submitted).next)
  {
    hide Inv, AssignmentOf, ResolveGeneration, ValidHash, ValidStableId, ValidAssignment, Chain, ConsistentTransfer;
    TransferStart(s, d, id);
    TransferFacts(d, id, d.transfers[id]);
    ShapeFacts(d, id);
    InvParts(s, d);
    var t := d.transfers[id];
    var q := d.placements[t.aggregateId].(state := Resident, activeTransferId := None);
    var u := ImportPlan(s.hash, d, id, submitted).record;
    PairConsistent(d, id, q, u);
    NewTransferKeepsChain(d, t.aggregateId, q, id, u);
    PairEditKeeps(s, d, t.aggregateId, q, id, u);
  }

  lemma FinalizeKeeps(s: Setting, d: Document, id: string, submitted: FinalizationProof)
    requires ValidSetting(s) && Inv(s, d) && FinalizePlan(s.hash, d, id, submitted).Install?
    ensures Inv(s, FinalizePlan(s.hash, d, id, submitted).next)
  {
    hide Inv, AssignmentOf, ResolveGeneration, ValidHash, ValidStableId, ValidAssignment;
    TransferStart(s, d, id);
    TransferEditKeeps(s, d, id, FinalizePlan(s.hash, d, id, submitted).record);
  }

  lemma RequestAbortKeeps(s: Setting, d: Document, id: string)
    requires ValidSetting(s) && Inv(s, d) && RequestAbortPlan(d, id).Install?
    ensures Inv(s, RequestAbortPlan(d, id).next)
  {
    hide Inv, AssignmentOf, ValidHash, ValidStableId, ValidAssignment;
    TransferStart(s, d, id);
    TransferEditKeeps(s, d, id, RequestAbortPlan(d, id).record);
  }

  lemma AbortCleanupKeeps(s: Setting, d: Document, id: string, submitted: AbortProof)
    requires ValidSetting(s) && Inv(s, d) && AbortCleanupPlan(s.hash, d, id, submitted).Install?
    ensures Inv(s, AbortCleanupPlan(s.hash, d, id, submitted).next)
  {
    hide Inv, AssignmentOf, ResolveGeneration, ValidHash, ValidStableId, ValidAssignment;
    TransferStart(s, d, id);
    TransferEditKeeps(s, d, id, AbortCleanupPlan(s.hash, d, id, submitted).record);
  }

  lemma FinalizeAbortKeeps(s: Setting, d: Document, id: string)
    requires ValidSetting(s) && Inv(s, d) && FinalizeAbortPlan(d, id).Install?
    ensures Inv(s, FinalizeAbortPlan(d, id).next)
  {
    hide Inv, AssignmentOf, ValidStableId, ValidAssignment, Chain, ConsistentTransfer;
    TransferStart(s, d, id);
    TransferFacts(d, id, d.transfers[id]);
    ShapeFacts(d, id);
    InvParts(s, d);
    var t := d.transfers[id];
    var q := d.placements[t.aggregateId].(state := Resident, activeTransferId := None);
    var u := t.(phase := Aborted);
    PairConsistent(d, id, q, u);
    NewTransferKeepsChain(d, t.aggregateId, q, id, u);
    PairEditKeeps(s, d, t.aggregateId, q, id, u);
  }
}
