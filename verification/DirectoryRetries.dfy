/** Fences that mean one generation for good, and calls that may be repeated. */
module DirectoryRetries {
  import opened Prelude
  import opened Address
  import opened CellDirectory
  import opened DirectoryInvariant
  import opened DirectorySteps
  import opened DirectoryRuns
  import opened DirectoryHistory
  import opened DirectoryProgress

  /** A fence once recorded for a generation means that generation in every later document. */
  lemma FenceMeansOneGeneration(s: Setting, d: Document, events: seq<Event>, cell: CellId, g: u64, h: u64)
    requires ValidSetting(s) && Inv(s, d) && cell in d.assignments && g in d.assignments[cell].fencingHistory
    ensures var e := Run(s.hash, d, events);
            && cell in e.assignments
            && var history := e.assignments[cell].fencingHistory;
               && g in history && history[g] == d.assignments[cell].fencingHistory[g]
               && (h in history && history[h] == history[g] ==> h == g)
  {
    hide Inv, Chain, TransfersHold, PlacementsHold, TransferEvolves, PlacementEvolves;
    RunEvolves(s, d, events);
    RunKeeps(s, d, events);
    var e := Run(s.hash, d, events);
    InvParts(s, e);
    var a := e.assignments[cell];
    assert ValidAssignment(cell, s.expected[cell].cellKey, a);
    if h in a.fencingHistory && h < g { HistoryIncreases(a, h, g); }
    if h in a.fencingHistory && g < h { HistoryIncreases(a, g, h); }
  }

  /** The fence in force at the source (or destination) when the transfer was prepared. */
  predicate FenceSincePrepare(a: CellAssignmentRecord, generation: u64, fence: u64) {
    generation in a.fencingHistory && a.fencingHistory[generation] <= fence
  }

  lemma FenceNotOlder(id: CellId, key: CellKey, a: CellAssignmentRecord, prepared: u64, generation: u64, fence: u64)
    requires ValidAssignment(id, key, a) && 1 <= prepared <= generation && HistoricalAuthority(generation, fence, a)
    ensures FenceSincePrepare(a, prepared, fence)
  {
    assert generation <= a.assignmentGeneration;
    assert prepared in a.fencingHistory;
    if prepared < generation { HistoryIncreases(a, prepared, generation); }
  }

  /** Every stored proof carries a fence no older than the one in force at prepare. */
  lemma StoredProofsAreFenced(s: Setting, d: Document, id: string)
    requires ValidSetting(s) && Inv(s, d) && id in d.transfers
    ensures var t := d.transfers[id];
            && TransferNamesRecords(d, t)
            && var source, destination := d.assignments[t.sourceCellId], d.assignments[t.destinationCellId];
               var g, h := t.sourceAssignmentGeneration, t.destinationAssignmentGeneration;
            && (t.sourcePrepareProof.Some? ==>
              FenceSincePrepare(source, g, t.sourcePrepareProof.value.sourceFencingToken))
            && (t.destinationQuarantineProof.Some? ==>
              FenceSincePrepare(destination, h, t.destinationQuarantineProof.value.destinationFencingToken))
            && (t.importProof.Some? ==> FenceSincePrepare(destination, h, t.importProof.value.destinationFencingToken))
            && (t.finalizationProof.Some? ==>
              FenceSincePrepare(source, g, t.finalizationProof.value.sourceFencingToken))
            && (t.sourceAbortProof.Some? ==> FenceSincePrepare(source, g, t.sourceAbortProof.value.fencingToken))
            && (t.destinationAbortProof.Some? ==>
              FenceSincePrepare(destination, h, t.destinationAbortProof.value.fencingToken))
  {
    hide Inv, ValidHash, ValidStableId, AssignmentOf, ValidAssignment, PlacementMatches, PhaseShape, FenceSincePrepare;
    TransferStart(s, d, id);
    var t := d.transfers[id];
    var source, destination := d.assignments[t.sourceCellId], d.assignments[t.destinationCellId];
    forall generation: u64, fence: u64 | HistoricalAuthority(generation, fence, source)
      && generation >= t.sourceAssignmentGeneration
      ensures FenceSincePrepare(source, t.sourceAssignmentGeneration, fence)
    {
      FenceNotOlder(t.sourceCellId, t.sourceCellKey, source, t.sourceAssignmentGeneration, generation, fence);
    }
    forall generation: u64, fence: u64 | HistoricalAuthority(generation, fence, destination)
      && generation >= t.destinationAssignmentGeneration
      ensures FenceSincePrepare(destination, t.destinationAssignmentGeneration, fence)
    {
      FenceNotOlder(t.destinationCellId, t.destinationCellKey, destination, t.destinationAssignmentGeneration,
        generation, fence);
    }
  }

  // ---- retries ---------------------------------------------------------------------------

  /** What a retry in a later document relies on. */
  lemma LaterTransfer(s: Setting, d: Document, events: seq<Event>, id: string)
    requires ValidSetting(s) && Inv(s, d) && id in d.transfers
    ensures var e := Run(s.hash, d, events);
            && Inv(s, e) && id in e.transfers && TransferEvolves(d.transfers[id], e.transfers[id])
            && var t := e.transfers[id];
            && ConsistentTransfer(e, id, t) && TransferNamesRecords(e, t) && t.transferId == id
            && AssignmentOf(s.hash, e, t.sourceCellKey) == Ok(e.assignments[t.sourceCellId])
            && AssignmentOf(s.hash, e, t.destinationCellKey) == Ok(e.assignments[t.destinationCellId])
            && ValidHistory(e.assignments[t.sourceCellId]) && ValidHistory(e.assignments[t.destinationCellId])
  {
    hide Inv, ConsistentTransfer, AssignmentOf, TransferEvolves, ValidHistory;
    RunEvolves(s, d, events);
    RunKeeps(s, d, events);
    TransferStart(s, Run(s.hash, d, events), id);
  }

  /** A recorded source prepare proof, resubmitted under its own fence in any later document where
      its cell is assigned, with its generation or with none, returns the stored record and
      changes nothing, in every phase. */
  lemma SourcePreparedRetry(s: Setting, d: Document, events: seq<Event>, id: string, claimed: u64)
    requires ValidSetting(s) && Inv(s, d) && id in d.transfers && d.transfers[id].sourcePrepareProof.Some?
    requires claimed in {0, d.transfers[id].sourcePrepareProof.value.sourceAssignmentGeneration}
    ensures var e, proof := Run(s.hash, d, events), d.transfers[id].sourcePrepareProof.value;
            && id in e.transfers && e.transfers[id].sourceCellId in e.assignments
            && (e.assignments[e.transfers[id].sourceCellId].state.Assigned? ==>
                  SourcePreparedPlan(s.hash, e, id, proof.(sourceAssignmentGeneration := claimed))
                    == Keep(e.transfers[id]))
  {
    hide Inv, AssignmentOf, ResolveGeneration, ValidHash, ValidStableId, ValidHistory;
    LaterTransfer(s, d, events, id);
    var e, proof := Run(s.hash, d, events), d.transfers[id].sourcePrepareProof.value;
    var source := e.assignments[e.transfers[id].sourceCellId];
    if source.state.Assigned? {
      FenceResolves(source, proof.sourceAssignmentGeneration, claimed);
      assert proof.(sourceAssignmentGeneration := claimed).(sourceAssignmentGeneration :=
          proof.sourceAssignmentGeneration) == proof;
    }
  }

  lemma QuarantineRetry(s: Setting, d: Document, events: seq<Event>, id: string, claimed: u64)
    requires ValidSetting(s) && Inv(s, d) && id in d.transfers && d.transfers[id].destinationQuarantineProof.Some?
    requires claimed in {0, d.transfers[id].destinationQuarantineProof.value.destinationAssignmentGeneration}
    ensures var e, proof := Run(s.hash, d, events), d.transfers[id].destinationQuarantineProof.value;
            && id in e.transfers && e.transfers[id].destinationCellId in e.assignments
            && (e.transfers[id].phase.Quarantined? ==>
                  e.assignments[e.transfers[id].destinationCellId].state.Assigned? ==>
                  QuarantinePlan(s.hash, e, id, proof.packageHash, proof.quarantineReceiptHash,
                                 proof.(destinationAssignmentGeneration := claimed)) == Keep(e.transfers[id]))
  {
    hide Inv, AssignmentOf, ResolveGeneration, ValidHash, ValidStableId, ValidHistory;
    LaterTransfer(s, d, events, id);
    var e, proof := Run(s.hash, d, events), d.transfers[id].destinationQuarantineProof.value;
    var destination := e.assignments[e.transfers[id].destinationCellId];
    if destination.state.Assigned? {
      FenceResolves(destination, proof.destinationAssignmentGeneration, claimed);
      assert proof.(destinationAssignmentGeneration := claimed).(destinationAssignmentGeneration :=
          proof.destinationAssignmentGeneration) == proof;
    }
  }

  lemma ImportRetry(s: Setting, d: Document, events: seq<Event>, id: string, claimed: u64)
    requires ValidSetting(s) && Inv(s, d) && id in d.transfers && d.transfers[id].importProof.Some?
    requires claimed in {0, d.transfers[id].importProof.value.destinationAssignmentGeneration}
    ensures var e, proof := Run(s.hash, d, events), d.transfers[id].importProof.value;
            && id in e.transfers && e.transfers[id].destinationCellId in e.assignments
            && (e.assignments[e.transfers[id].destinationCellId].state.Assigned? ==>
                  ImportPlan(s.hash, e, id, proof.(destinationAssignmentGeneration := claimed))
                    == Keep(e.transfers[id]))
  {
    hide Inv, AssignmentOf, ResolveGeneration, ValidHash, ValidStableId, ValidHistory;
    LaterTransfer(s, d, events, id);
    var e, proof := Run(s.hash, d, events), d.transfers[id].importProof.value;
    var destination := e.assignments[e.transfers[id].destinationCellId];
    if destination.state.Assigned? {
      FenceResolves(destination, proof.destinationAssignmentGeneration, claimed);
      assert proof.(destinationAssignmentGeneration := claimed).(destinationAssignmentGeneration :=
          proof.destinationAssignmentGeneration) == proof;
    }
  }

  lemma FinalizationRetry(s: Setting, d: Document, events: seq<Event>, id: string, claimed: u64)
    requires ValidSetting(s) && Inv(s, d) && id in d.transfers && d.transfers[id].finalizationProof.Some?
    requires claimed in {0, d.transfers[id].finalizationProof.value.sourceAssignmentGeneration}
    ensures var e, proof := Run(s.hash, d, events), d.transfers[id].finalizationProof.value;
            && id in e.transfers && e.transfers[id].sourceCellId in e.assignments
            && (e.assignments[e.transfers[id].sourceCellId].state.Assigned? ==>
                  FinalizePlan(s.hash, e, id, proof.(sourceAssignmentGeneration := claimed)) == Keep(e.transfers[id]))
  {
    hide Inv, AssignmentOf, ResolveGeneration, ValidHash, ValidStableId, ValidHistory;
    LaterTransfer(s, d, events, id);
    var e, proof := Run(s.hash, d, events), d.transfers[id].finalizationProof.value;
    var source := e.assignments[e.transfers[id].sourceCellId];
    if source.state.Assigned? {
      FenceResolves(source, proof.sourceAssignmentGeneration, claimed);
      assert proof.(sourceAssignmentGeneration := claimed).(sourceAssignmentGeneration :=
          proof.sourceAssignmentGeneration) == proof;
    }
  }

  lemma AbortCleanupRetry(s: Setting, d: Document, events: seq<Event>, id: string, role: AbortRole, claimed: u64)
    requires ValidSetting(s) && Inv(s, d) && id in d.transfers && AbortProofFor(d.transfers[id], role).Some?
    requires claimed in {0, AbortProofFor(d.transfers[id], role).value.assignmentGeneration}
    ensures var e, proof := Run(s.hash, d, events), AbortProofFor(d.transfers[id], role).value;
            && id in e.transfers && TransferNamesRecords(e, e.transfers[id])
            && (e.transfers[id].phase.Aborting? ==>
                  AbortCleanupPlan(s.hash, e, id, proof.(assignmentGeneration := claimed)) == Keep(e.transfers[id]))
  {
    hide Inv, AssignmentOf, ResolveGeneration, ValidHash, ValidStableId, ValidHistory;
    LaterTransfer(s, d, events, id);
    var e, proof := Run(s.hash, d, events), AbortProofFor(d.transfers[id], role).value;
    var cell := e.assignments[if role.Source? then e.transfers[id].sourceCellId else e.transfers[id].destinationCellId];
    if e.transfers[id].phase.Aborting? {
      FenceResolves(cell, proof.assignmentGeneration, claimed);
      assert proof.(assignmentGeneration := claimed).(assignmentGeneration := proof.assignmentGeneration) == proof;
    }
  }

  /** A prepare that was installed is idempotent forever: the same call returns the transfer as it
      stands, whatever happened since; the same id with other material is refused. */
  lemma PrepareRetry(s: Setting, d: Document, events: seq<Event>, id: string,
                     a: string, expected: u64, key: CellKey, packageHash: string)
    requires ValidSetting(s) && Inv(s, d) && id in d.transfers
    requires ValidStableId(a) && ValidHash(packageHash)
    ensures var e, t := Run(s.hash, d, events), d.transfers[id];
            && id in e.transfers
            && PreparePlan(s.hash, e, a, expected, id, key, packageHash)
               == if t.aggregateId == a && t.destinationCellKey == key && t.priorPlacementGeneration == expected
                 && t.packageHash == packageHash
                  then Keep(e.transfers[id]) else Refuse(TransferConflict(id))
  {
    hide Inv, AssignmentOf, ValidHash, ProofsBound, PlacementMatches, PhaseShape;
    LaterTransfer(s, d, events, id);
  }
}
