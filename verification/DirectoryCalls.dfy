/** When each call is accepted, what exactly it writes, and with which error it is refused
    otherwise, on every document a run can reach. Stated on the records, not on the plans: the
    invariant makes most guards of the code follow from the phase. */
module DirectoryCalls {
  import opened Prelude
  import opened Address
  import opened CellDirectory
  import opened DirectoryInvariant
  import opened DirectorySteps
  import opened DirectoryRuns
  import opened DirectoryHistory
  import opened DirectoryProgress
  import opened DirectoryRetries

  // ---- fences ----------------------------------------------------------------------------

  /** An assigned cell gave this fence to generation `g`, and the claim does not contradict it. */
  predicate Resolves(a: CellAssignmentRecord, claimed: u64, fence: u64, g: u64) {
    a.state.Assigned? && g in a.fencingHistory && a.fencingHistory[g] == fence && (claimed == 0 || claimed == g)
  }

  /** A fence resolves to a generation if and only if the cell is assigned, that generation was given
      this very fence, and the claimed generation is absent or the same. */
  lemma ResolvesExactly(a: CellAssignmentRecord, claimed: u64, fence: u64, g: u64)
    requires ValidHistory(a)
    ensures ResolveGeneration(claimed, fence, a) == Some(g) <==> Resolves(a, claimed, fence, g)
  {
    var found := ResolveGeneration(claimed, fence, a);
    if Resolves(a, claimed, fence, g) {
      FenceResolves(a, g, claimed);
    } else if found == Some(g) {
      ResolvedIsRecorded(a, claimed, fence);
    }
  }

  lemma ResolvedIsRecorded(a: CellAssignmentRecord, claimed: u64, fence: u64)
    requires ResolveGeneration(claimed, fence, a).Some?
    ensures Resolves(a, claimed, fence, ResolveGeneration(claimed, fence, a).value)
  {
    var g := ResolveGeneration(claimed, fence, a).value;
    assert g in GenerationsOf(a, fence) by {
      SingletonWitness(GenerationsOf(a, fence));
      var h :| GenerationsOf(a, fence) == {h};
      assert forall x | GenerationsOf(a, fence) == {x} :: x in GenerationsOf(a, fence);
    }
  }

  /** No generation of the cell resolves. */
  ghost predicate Unresolved(a: CellAssignmentRecord, claimed: u64, fence: u64) {
    forall g: u64 :: !Resolves(a, claimed, fence, g)
  }

  lemma UnresolvedIsNone(a: CellAssignmentRecord, claimed: u64, fence: u64)
    requires ValidHistory(a) && Unresolved(a, claimed, fence)
    ensures ResolveGeneration(claimed, fence, a).None?
  {
    hide ResolveGeneration, Resolves;
    if ResolveGeneration(claimed, fence, a).Some? {
      ResolvesExactly(a, claimed, fence, ResolveGeneration(claimed, fence, a).value);
    }
  }

  /** The history the validator accepts is one strictly rising sequence of positive fences for the
      generations from one to the current one, whose fence is the one in force. */
  lemma HistoryExactly(a: CellAssignmentRecord)
    ensures ValidHistory(a) <==>
            && (forall g: u64 :: g in a.fencingHistory <==> 1 <= g <= a.assignmentGeneration)
            && (forall g, h | g in a.fencingHistory && h in a.fencingHistory && g < h ::
                  a.fencingHistory[g] < a.fencingHistory[h])
            && (forall g | g in a.fencingHistory :: a.fencingHistory[g] > 0)
            && (a.assignmentGeneration == 0 ==> a.authorityFencingToken == 0)
            && (a.assignmentGeneration > 0 ==>
                  a.assignmentGeneration in a.fencingHistory
                    && a.fencingHistory[a.assignmentGeneration] == a.authorityFencingToken)
  {
    if ValidHistory(a) {
      forall g, h | g in a.fencingHistory && h in a.fencingHistory && g < h
        ensures a.fencingHistory[g] < a.fencingHistory[h]
      {
        HistoryIncreases(a, g, h);
      }
    }
  }

  /** Both cells of a stored transfer as its next call finds them. */
  lemma Cells(s: Setting, d: Document, id: string)
    requires ValidSetting(s) && Inv(s, d) && id in d.transfers
    ensures var t := d.transfers[id];
            && TransferNamesRecords(d, t) && t.transferId == id
            && AssignmentOf(s.hash, d, t.sourceCellKey) == Ok(d.assignments[t.sourceCellId])
            && AssignmentOf(s.hash, d, t.destinationCellKey) == Ok(d.assignments[t.destinationCellId])
            && ValidHistory(d.assignments[t.sourceCellId]) && ValidHistory(d.assignments[t.destinationCellId])
            && (!Terminal(t.phase) ==>
                  d.assignments[t.sourceCellId].state.Assigned? && d.assignments[t.destinationCellId].state.Assigned?)
            && PlacementMatches(id, t, d.placements[t.aggregateId])
            && PhaseShape(t) && WeakSourceProofShape(t)
  {
    hide Inv, ConsistentTransfer, AssignmentOf, ValidHistory, PhaseShape, PlacementMatches;
    TransferStart(s, d, id);
    TransferFacts(d, id, d.transfers[id]);
    ShapeFacts(d, id);
  }

  // ---- assignments -----------------------------------------------------------------------

  /** The cell of this key is one of the directory's. */
  predicate Known(s: Setting, d: Document, key: CellKey) {
    ValidCellKey(key) && s.hash(key) in d.assignments
  }

  function UnknownKey(s: Setting, key: CellKey): DirectoryError {
    if ValidCellKey(key) then UnknownCell(s.hash(key)) else InvalidDirectory
  }

  lemma KeyFound(s: Setting, d: Document, key: CellKey)
    requires ValidSetting(s) && Inv(s, d)
    ensures !Known(s, d, key) ==> AssignmentOf(s.hash, d, key) == Err(UnknownKey(s, key))
    ensures Known(s, d, key) ==>
              && AssignmentOf(s.hash, d, key) == Ok(d.assignments[s.hash(key)])
              && d.assignments[s.hash(key)].cellId == s.hash(key)
              && (d.assignments[s.hash(key)].state.Sleeping? || d.assignments[s.hash(key)].state.Assigned?)
              && (d.assignments[s.hash(key)].state.Sleeping? <==> d.assignments[s.hash(key)].holderId.None?)
  {
    hide Inv, ValidCellKey, ValidHistory, PlacementsHold, TransfersHold, LinksHold, Chain;
    InvParts(s, d);
    if Known(s, d, key) { AssignmentFound(s, d, key); }
  }

  /** The assignment after the next generation was given to a holder under a new fence. */
  predicate GivenTo(a: CellAssignmentRecord, b: CellAssignmentRecord, holderId: string, fence: u64) {
    && b.cellId == a.cellId && b.cellKey == a.cellKey
    && b.assignmentGeneration == a.assignmentGeneration + 1
    && b.authorityFencingToken == fence
    && b.fencingHistory == a.fencingHistory[b.assignmentGeneration := fence]
    && b.state.Assigned? && b.holderId == Some(holderId)
  }

  lemma ClaimCall(s: Setting, d: Document, key: CellKey, expected: u64, holderId: string, fence: u64)
    requires ValidSetting(s) && Inv(s, d)
    ensures var plan := ClaimPlan(s.hash, d, key, expected, holderId, fence);
            && !plan.Keep?
            && (!ValidStableId(holderId) || fence == 0 ==> plan == Refuse(InvalidDirectory))
            && (ValidStableId(holderId) && fence != 0 && !Known(s, d, key) ==> plan == Refuse(UnknownKey(s, key)))
            && (ValidStableId(holderId) && fence != 0 && Known(s, d, key) ==>
                  var id, a := s.hash(key), d.assignments[s.hash(key)];
                  var asleep := a.assignmentGeneration == expected && a.state.Sleeping?;
                  && (plan.Install? <==> asleep && expected < U64_MAX && fence > a.authorityFencingToken)
                  && (plan.Refuse? ==>
                        plan.error == if asleep && expected == U64_MAX then AssignmentGenerationExhausted(id)
                          else AssignmentConflict(id))
                  && (plan.Install? ==>
                        && GivenTo(a, plan.record, holderId, fence)
                        && plan.next == d.(assignments := d.assignments[id := plan.record])))
  {
    hide Inv, ValidSetting, ValidStableId, AssignmentOf, Known;
    KeyFound(s, d, key);
  }

  lemma RecoverCall(s: Setting, d: Document, key: CellKey, expected: u64, holderId: string, fence: u64)
    requires ValidSetting(s) && Inv(s, d)
    ensures var plan := RecoverPlan(s.hash, d, key, expected, holderId, fence);
            && !plan.Keep?
            && (!ValidStableId(holderId) ==> plan == Refuse(InvalidDirectory))
            && (ValidStableId(holderId) && !Known(s, d, key) ==> plan == Refuse(UnknownKey(s, key)))
            && (ValidStableId(holderId) && Known(s, d, key) ==>
                  var id, a := s.hash(key), d.assignments[s.hash(key)];
                  var held := a.assignmentGeneration == expected && a.state.Assigned?;
                  && (plan.Install? <==> held && expected < U64_MAX && fence > a.authorityFencingToken)
                  && (plan.Refuse? ==>
                        plan.error == if held && expected == U64_MAX then AssignmentGenerationExhausted(id)
                          else AssignmentConflict(id))
                  && (plan.Install? ==>
                        && GivenTo(a, plan.record, holderId, fence)
                        && plan.next == d.(assignments := d.assignments[id := plan.record])))
  {
    hide Inv, ValidSetting, ValidStableId, AssignmentOf, Known;
    KeyFound(s, d, key);
  }

  /** A release is accepted exactly for the holder of the current generation of an assigned cell
      that no live transfer leaves or enters; a cell already asleep at that generation is returned
      as it is. */
  lemma ReleaseCall(s: Setting, d: Document, key: CellKey, expected: u64, holderId: string)
    requires ValidSetting(s) && Inv(s, d)
    ensures var plan := ReleasePlan(s.hash, d, key, expected, holderId);
            && (!ValidStableId(holderId) ==> plan == Refuse(InvalidDirectory))
            && (ValidStableId(holderId) && !Known(s, d, key) ==> plan == Refuse(UnknownKey(s, key)))
            && (ValidStableId(holderId) && Known(s, d, key) ==>
                  var id, a := s.hash(key), d.assignments[s.hash(key)];
                  && (plan.Keep? <==> a.state.Sleeping? && a.assignmentGeneration == expected)
                  && (plan.Install? <==>
                        && a.state.Assigned? && a.assignmentGeneration == expected && a.holderId == Some(holderId)
                        && forall x | x in d.transfers
                             && !d.transfers[x].phase.Finalized? && !d.transfers[x].phase.Aborted? ::
                             d.transfers[x].sourceCellId != id && d.transfers[x].destinationCellId != id)
                  && (plan.Keep? ==> plan.record == a)
                  && (plan.Refuse? ==> plan.error == AssignmentConflict(id))
                  && (plan.Install? ==>
                        && plan.record == a.(state := Sleeping, holderId := None)
                        && plan.next == d.(assignments := d.assignments[id := plan.record])))
  {
    hide Inv, ValidSetting, ValidStableId, AssignmentOf, Known;
    KeyFound(s, d, key);
    if Known(s, d, key) {
      var id := s.hash(key);
      if !Pinned(d, id) {
        forall x | x in d.transfers && !d.transfers[x].phase.Finalized? && !d.transfers[x].phase.Aborted?
          ensures d.transfers[x].sourceCellId != id && d.transfers[x].destinationCellId != id
        {
          assert !PinnedBy(d.transfers[x], id);
        }
      }
    }
  }

  lemma RegisterCall(s: Setting, d: Document, a: string, kind: MobileAggregateKind, key: CellKey)
    requires ValidSetting(s) && Inv(s, d)
    ensures var plan := RegisterPlan(s.hash, d, a, kind, key);
            && (!ValidStableId(a) ==> plan == Refuse(InvalidDirectory))
            && (ValidStableId(a) && !Known(s, d, key) ==> plan == Refuse(UnknownKey(s, key)))
            && (ValidStableId(a) && Known(s, d, key) ==>
                  var first := AggregatePlacementRecord(a, kind, key, s.hash(key), 1, Resident, None);
                  plan == if a !in d.placements then Install(d.(placements := d.placements[a := first]), first)
                    else if d.placements[a] == first then Keep(first) else Refuse(TransferConflict(a)))
  {
    hide Inv, ValidSetting, ValidStableId, AssignmentOf, Known;
    KeyFound(s, d, key);
  }

  // ---- prepare ---------------------------------------------------------------------------

  /** The transfer of a resident aggregate, from the cell it rests in, under the generations both
      cells have now. */
  predicate BindsNow(d: Document, t: CellTransferRecord, id: string, a: string, expected: u64, key: CellKey,
      cell: CellId, packageHash: string)
    requires a in d.placements && d.placements[a].cellId in d.assignments && cell in d.assignments
  {
    var p := d.placements[a];
    && t.transferId == id && t.aggregateId == a && t.aggregateKind == p.aggregateKind
    && t.sourceCellKey == p.cellKey && t.sourceCellId == p.cellId
    && t.destinationCellKey == key && t.destinationCellId == cell
    && t.sourceAssignmentGeneration == d.assignments[p.cellId].assignmentGeneration
    && t.destinationAssignmentGeneration == d.assignments[cell].assignmentGeneration
    && t.priorPlacementGeneration == expected && t.resultingPlacementGeneration == expected + 1
    && t.packageHash == packageHash
    && t.phase.Prepared? && t.quarantineReceiptHash.None?
    && t.sourcePrepareProof.None? && t.destinationQuarantineProof.None? && t.importProof.None?
    && t.finalizationProof.None? && t.sourceAbortProof.None? && t.destinationAbortProof.None?
  }

  /** The aggregate may leave: it rests at the expected generation, in an assigned cell, for another
      assigned cell. */
  predicate MayLeave(d: Document, a: string, expected: u64, cell: CellId)
    requires a in d.placements && d.placements[a].cellId in d.assignments && cell in d.assignments
  {
    && d.assignments[d.placements[a].cellId].state.Assigned? && d.assignments[cell].state.Assigned?
    && d.placements[a].state.Resident? && d.placements[a].placementGeneration == expected
    && d.placements[a].cellId != cell
  }

  lemma PrepareCall(s: Setting, d: Document, a: string, expected: u64, id: string, key: CellKey, packageHash: string)
    requires ValidSetting(s) && Inv(s, d)
    requires ValidStableId(a) && ValidStableId(id) && ValidHash(packageHash) && id !in d.transfers
    ensures var plan := PreparePlan(s.hash, d, a, expected, id, key, packageHash);
            && !plan.Keep?
            && (a !in d.placements ==> plan == Refuse(UnknownAggregate(a)))
            && (a in d.placements && !Known(s, d, key) ==> plan == Refuse(UnknownKey(s, key)))
            && (a in d.placements && Known(s, d, key) ==>
                  var cell := s.hash(key);
                  && d.placements[a].cellId in d.assignments
                  && (plan.Install? <==> MayLeave(d, a, expected, cell) && expected < U64_MAX)
                  && (plan.Refuse? ==>
                        plan.error == if MayLeave(d, a, expected, cell) then PlacementGenerationExhausted(a)
                          else TransferConflict(id))
                  && (plan.Install? ==>
                        && BindsNow(d, plan.record, id, a, expected, key, cell, packageHash)
                        && plan.next == d.(
                             placements := d.placements[a := d.placements[a].(state := Preparing,
                               activeTransferId := Some(id))],
                             transfers := d.transfers[id := plan.record])))
  {
    hide Inv, ValidSetting, ValidStableId, ValidHash, Known, AssignmentOf;
    KeyFound(s, d, key);
    if a in d.placements { PlacementFound(s, d, a); }
  }

  /** The aggregate's cell is found through its key; it rests exactly when nothing moves it. */
  lemma PlacementFound(s: Setting, d: Document, a: string)
    requires ValidSetting(s) && Inv(s, d) && a in d.placements
    ensures var p := d.placements[a];
            && p.cellId in d.assignments && d.assignments[p.cellId].cellId == p.cellId
            && AssignmentOf(s.hash, d, p.cellKey) == Ok(d.assignments[p.cellId])
            && (p.state.Resident? <==> p.activeTransferId.None?)
  {
    hide Inv, ValidStableId, ValidCellKey, AssignmentOf, ValidHistory, Chain, TransfersHold, LinksHold;
    InvParts(s, d);
    CellKnown(d, a);
    AssignmentKnown(s, d, d.placements[a].cellId);
    assert ValidPlacement(d.assignments, a, d.placements[a]);
  }

  /** The arguments that are refused before any record is looked at. */
  lemma PrepareArguments(s: Setting, d: Document, a: string, expected: u64, id: string, key: CellKey,
      packageHash: string)
    requires !ValidStableId(a) || !ValidStableId(id) || !ValidHash(packageHash)
    ensures PreparePlan(s.hash, d, a, expected, id, key, packageHash) == Refuse(InvalidDirectory)
  {}

  /** Every proof of the transfer carries a fence of its cell no older than the given ones. */
  predicate ProofsSince(t: CellTransferRecord, source: u64, destination: u64) {
    && (t.sourcePrepareProof.Some? ==> t.sourcePrepareProof.value.sourceFencingToken >= source)
    && (t.destinationQuarantineProof.Some? ==>
      t.destinationQuarantineProof.value.destinationFencingToken >= destination)
    && (t.importProof.Some? ==> t.importProof.value.destinationFencingToken >= destination)
    && (t.finalizationProof.Some? ==> t.finalizationProof.value.sourceFencingToken >= source)
    && (t.sourceAbortProof.Some? ==> t.sourceAbortProof.value.fencingToken >= source)
    && (t.destinationAbortProof.Some? ==> t.destinationAbortProof.value.fencingToken >= destination)
  }

  /** Split-brain safety: once a prepare was installed, every proof that is ever stored for that
      transfer, in any run, carries a fence at least as new as the fence that was in force at its
      cell when the prepare was accepted. A host fenced out before the prepare never contributes. */
  lemma FencedSincePrepare(s: Setting, d: Document, a: string, expected: u64, id: string, key: CellKey,
      packageHash: string, events: seq<Event>)
    requires ValidSetting(s) && Inv(s, d) && d.directoryRevision < U64_MAX
    requires PreparePlan(s.hash, d, a, expected, id, key, packageHash).Install?
    ensures a in d.placements && d.placements[a].cellId in d.assignments && s.hash(key) in d.assignments
    ensures var e := Run(s.hash, Step(s.hash, d, Event(Prepare(a, expected, id, key, packageHash), true)), events);
            && id in e.transfers
            && ProofsSince(e.transfers[id], d.assignments[d.placements[a].cellId].authorityFencingToken,
                 d.assignments[s.hash(key)].authorityFencingToken)
  {
    hide *;
    PrepareInstalls(s, d, a, expected, id, key, packageHash);
    var source, cell := d.placements[a].cellId, s.hash(key);
    var n := Step(s.hash, d, Event(Prepare(a, expected, id, key, packageHash), true));
    var e := Run(s.hash, n, events);
    RunKeeps(s, n, events);
    RunEvolves(s, n, events);
    CurrentInForce(s, d, source);
    CurrentInForce(s, d, cell);
    Survives(n, e, id);
    BindsCells(d, n.transfers[id], id, a, expected, key, cell, packageHash);
    HistorySurvives(d, n, e, source, d.assignments[source].assignmentGeneration);
    HistorySurvives(d, n, e, cell, d.assignments[cell].assignmentGeneration);
    SinceBound(s, e, id, d.assignments[source].authorityFencingToken, d.assignments[cell].authorityFencingToken);
  }

  lemma BindsCells(d: Document, t: CellTransferRecord, id: string, a: string, expected: u64, key: CellKey,
      cell: CellId, packageHash: string)
    requires a in d.placements && d.placements[a].cellId in d.assignments && cell in d.assignments
    requires BindsNow(d, t, id, a, expected, key, cell, packageHash)
    ensures t.sourceCellId == d.placements[a].cellId && t.destinationCellId == cell
    ensures t.sourceAssignmentGeneration == d.assignments[t.sourceCellId].assignmentGeneration
    ensures t.destinationAssignmentGeneration == d.assignments[cell].assignmentGeneration
  {}

  lemma CurrentInForce(s: Setting, d: Document, cell: CellId)
    requires Inv(s, d) && cell in d.assignments && d.assignments[cell].state.Assigned?
    ensures d.assignments[cell].assignmentGeneration in d.assignments[cell].fencingHistory
    ensures d.assignments[cell].fencingHistory[d.assignments[cell].assignmentGeneration]
        == d.assignments[cell].authorityFencingToken
  {
    hide Inv, Chain, TransfersHold, PlacementsHold, LinksHold;
    InvParts(s, d);
    assert ValidAssignment(cell, s.expected[cell].cellKey, d.assignments[cell]);
  }

  lemma PrepareInstalls(s: Setting, d: Document, a: string, expected: u64, id: string, key: CellKey,
      packageHash: string)
    requires ValidSetting(s) && Inv(s, d) && d.directoryRevision < U64_MAX
    requires PreparePlan(s.hash, d, a, expected, id, key, packageHash).Install?
    ensures a in d.placements && d.placements[a].cellId in d.assignments && s.hash(key) in d.assignments
    ensures d.assignments[d.placements[a].cellId].state.Assigned? && d.assignments[s.hash(key)].state.Assigned?
    ensures var n := Step(s.hash, d, Event(Prepare(a, expected, id, key, packageHash), true));
            && Inv(s, n) && n.assignments == d.assignments
            && id in n.transfers && BindsNow(d, n.transfers[id], id, a, expected, key, s.hash(key), packageHash)
  {
    hide Inv, ValidSetting, PreparePlan, BindsNow, ValidStableId, ValidHash, ValidCellKey;
    StepKeeps(s, d, Event(Prepare(a, expected, id, key, packageHash), true));
    PrepareShape(s, d, a, expected, id, key, packageHash);
    PrepareCall(s, d, a, expected, id, key, packageHash);
  }

  lemma Survives(n: Document, e: Document, id: string)
    requires Evolves(n, e) && id in n.transfers
    ensures id in e.transfers
    ensures var t, u := n.transfers[id], e.transfers[id];
            && u.sourceCellId == t.sourceCellId && u.destinationCellId == t.destinationCellId
            && u.sourceAssignmentGeneration == t.sourceAssignmentGeneration
            && u.destinationAssignmentGeneration == t.destinationAssignmentGeneration
  {}

  lemma HistorySurvives(d: Document, n: Document, e: Document, cell: CellId, g: u64)
    requires Evolves(n, e) && n.assignments == d.assignments
    requires cell in d.assignments && g in d.assignments[cell].fencingHistory
    ensures cell in e.assignments && g in e.assignments[cell].fencingHistory
    ensures e.assignments[cell].fencingHistory[g] == d.assignments[cell].fencingHistory[g]
  {}

  /** The bound on stored proofs, with the fences of the two bound generations given. */
  lemma SinceBound(s: Setting, e: Document, id: string, source: u64, destination: u64)
    requires ValidSetting(s) && Inv(s, e) && id in e.transfers
    requires var t := e.transfers[id];
             && t.sourceCellId in e.assignments && t.destinationCellId in e.assignments
             && var from, to := e.assignments[t.sourceCellId].fencingHistory,
                  e.assignments[t.destinationCellId].fencingHistory;
                && t.sourceAssignmentGeneration in from && from[t.sourceAssignmentGeneration] == source
                && t.destinationAssignmentGeneration in to && to[t.destinationAssignmentGeneration] == destination
    ensures ProofsSince(e.transfers[id], source, destination)
  {
    hide Inv, ValidSetting;
    StoredProofsAreFenced(s, e, id);
  }

  // ---- the calls on a stored transfer ----------------------------------------------------

  predicate SourceProofNames(t: CellTransferRecord, proof: PrepareProof) {
    && proof.transferId == t.transferId && proof.packageHash == t.packageHash
    && proof.sourceCellId == t.sourceCellId && proof.priorPlacementGeneration == t.priorPlacementGeneration
    && proof.sourceAssignmentGeneration >= t.sourceAssignmentGeneration && proof.sourceEventSequence > 0
  }

  lemma SourcePreparedCall(s: Setting, d: Document, id: string, submitted: PrepareProof, g: u64)
    requires ValidSetting(s) && Inv(s, d)
    ensures var plan := SourcePreparedPlan(s.hash, d, id, submitted);
            if id !in d.transfers then plan == Refuse(UnknownTransfer(id))
            else
              var t := d.transfers[id];
              && t.sourceCellId in d.assignments
              && var a := d.assignments[t.sourceCellId];
              var claimed, fence := submitted.sourceAssignmentGeneration, submitted.sourceFencingToken;
              && (Unresolved(a, claimed, fence) ==> plan == Refuse(TransferConflict(id)))
              && (Resolves(a, claimed, fence, g) ==>
                    var proof := submitted.(sourceAssignmentGeneration := g);
                    var hashes := ValidHash(proof.sourceEventHash) && ValidHash(proof.sourceWorldHash);
                    && (plan.Install? <==>
                          hashes && SourceProofNames(t, proof) && t.phase.Prepared? && t.sourcePrepareProof.None?)
                    && (plan.Keep? <==> hashes && SourceProofNames(t, proof) && t.sourcePrepareProof == Some(proof))
                    && (plan.Refuse? ==> plan.error == if hashes then TransferConflict(id) else InvalidDirectory)
                    && (plan.Keep? ==> plan.record == t)
                    && (plan.Install? ==>
                          && plan.record == t.(sourcePrepareProof := Some(proof))
                          && plan.next == d.(transfers := d.transfers[id := plan.record])))
  {
    hide Inv, ValidSetting, ValidHash, ValidHistory, AssignmentOf, ResolveGeneration, Unresolved, PhaseShape,
      PlacementMatches;
    if id in d.transfers {
      Cells(s, d, id);
      var a := d.assignments[d.transfers[id].sourceCellId];
      ResolvesExactly(a, submitted.sourceAssignmentGeneration, submitted.sourceFencingToken, g);
      if Unresolved(a, submitted.sourceAssignmentGeneration, submitted.sourceFencingToken) {
        UnresolvedIsNone(a, submitted.sourceAssignmentGeneration, submitted.sourceFencingToken);
      }
      if Resolves(a, submitted.sourceAssignmentGeneration, submitted.sourceFencingToken, g) {
        PositiveFence(a, g);
      }
    }
  }

  predicate QuarantineProofNames(t: CellTransferRecord, proof: QuarantineProof) {
    && proof.transferId == t.transferId && proof.packageHash == t.packageHash
    && proof.destinationCellId == t.destinationCellId
    && proof.resultingPlacementGeneration == t.resultingPlacementGeneration
    && proof.destinationAssignmentGeneration >= t.destinationAssignmentGeneration
    && proof.destinationEventSequence > 0
  }

  lemma QuarantineCall(s: Setting, d: Document, id: string, packageHash: string, receiptHash: string,
      submitted: QuarantineProof, g: u64)
    requires ValidSetting(s) && Inv(s, d)
    ensures var plan := QuarantinePlan(s.hash, d, id, packageHash, receiptHash, submitted);
            if !ValidHash(packageHash) || !ValidHash(receiptHash) then plan == Refuse(InvalidDirectory)
            else if id !in d.transfers then plan == Refuse(UnknownTransfer(id))
            else if d.transfers[id].packageHash != packageHash then plan == Refuse(TransferConflict(id))
            else
              var t := d.transfers[id];
              && t.destinationCellId in d.assignments
              && var a := d.assignments[t.destinationCellId];
              var claimed, fence := submitted.destinationAssignmentGeneration, submitted.destinationFencingToken;
              && (Unresolved(a, claimed, fence) ==> plan == Refuse(TransferConflict(id)))
              && (Resolves(a, claimed, fence, g) ==>
                    var proof := submitted.(destinationAssignmentGeneration := g);
                    var hashes := ValidHash(proof.destinationEventHash) && ValidHash(proof.destinationWorldHash);
                    var due := proof.quarantineReceiptHash == receiptHash && t.phase.Prepared?
                               && t.sourcePrepareProof.Some?;
                    && (plan.Install? <==> due && hashes && QuarantineProofNames(t, proof))
                    && (plan.Keep? <==>
                          && proof.quarantineReceiptHash == receiptHash && t.phase.Quarantined?
                          && t.destinationQuarantineProof == Some(proof))
                    && (plan.Refuse? ==>
                          plan.error == if due && !hashes then InvalidDirectory else TransferConflict(id))
                    && (plan.Keep? ==> plan.record == t)
                    && (plan.Install? ==>
                          && plan.record == t.(phase := Quarantined, quarantineReceiptHash := Some(receiptHash),
                               destinationQuarantineProof := Some(proof))
                          && plan.next == d.(transfers := d.transfers[id := plan.record])))
  {
    hide Inv, ValidSetting, ValidHash, ValidHistory, AssignmentOf, ResolveGeneration, Unresolved, PlacementMatches;
    if id in d.transfers {
      Cells(s, d, id);
      QuarantineReceipt(s, d, id);
      var a := d.assignments[d.transfers[id].destinationCellId];
      var claimed, fence := submitted.destinationAssignmentGeneration, submitted.destinationFencingToken;
      ResolvesExactly(a, claimed, fence, g);
      if Unresolved(a, claimed, fence) { UnresolvedIsNone(a, claimed, fence); }
      if Resolves(a, claimed, fence, g) { PositiveFence(a, g); }
    }
  }

  /** The receipt a transfer carries is the one its quarantine proof names. */
  lemma QuarantineReceipt(s: Setting, d: Document, id: string)
    requires ValidSetting(s) && Inv(s, d) && id in d.transfers
    ensures d.transfers[id].destinationQuarantineProof.Some? ==>
              d.transfers[id].quarantineReceiptHash
                == Some(d.transfers[id].destinationQuarantineProof.value.quarantineReceiptHash)
  {
    hide Inv, ValidSetting, ValidHash, ValidStableId, AssignmentOf, HistoricalAuthority, PlacementMatches, PhaseShape;
    TransferStart(s, d, id);
  }

  /** A commit is accepted exactly for a quarantined transfer named with its prior generation: the
      invariant supplies both proofs, both assignments and the placement. */
  lemma CommitCall(s: Setting, d: Document, id: string, expected: u64)
    requires ValidSetting(s) && Inv(s, d)
    ensures var plan := CommitPlan(s.hash, d, id, expected);
            if id !in d.transfers then plan == Refuse(UnknownTransfer(id))
            else
              var t := d.transfers[id];
              && (plan.Keep? <==>
                    (t.phase.Committed? || t.phase.Imported? || t.phase.Finalized?)
                      && t.priorPlacementGeneration == expected)
              && (plan.Install? <==> t.phase.Quarantined? && t.priorPlacementGeneration == expected)
              && (plan.Refuse? ==> plan.error == TransferConflict(id))
              && (plan.Keep? ==> plan.record == t)
              && (plan.Install? ==>
                    && t.aggregateId in d.placements
                    && plan.record == t.(phase := Committed)
                    && var p := d.placements[t.aggregateId];
                       plan.next == d.(
                         placements := d.placements[t.aggregateId := p.(cellKey := t.destinationCellKey,
                           cellId := t.destinationCellId, placementGeneration := p.placementGeneration + 1,
                           state := InTransit)],
                         transfers := d.transfers[id := plan.record]))
  {
    hide Inv, ValidSetting, ValidHistory, AssignmentOf;
    if id in d.transfers {
      Cells(s, d, id);
      CommitGuards(s, d, id);
    }
  }

  lemma CommitGuards(s: Setting, d: Document, id: string)
    requires ValidSetting(s) && Inv(s, d) && id in d.transfers
    ensures var t := d.transfers[id];
            && t.priorPlacementGeneration + 1 == t.resultingPlacementGeneration
            && (!Terminal(t.phase) ==>
                  && TransferNamesRecords(d, t)
                  && AssignmentsCurrent(t, d.assignments[t.sourceCellId], d.assignments[t.destinationCellId]))
  {
    hide Inv, ValidSetting, ConsistentTransfer, AssignmentOf, AssignmentsCurrent, CommitPlan, ReleasePlan, PhaseShape;
    TransferStart(s, d, id);
    TransferFacts(d, id, d.transfers[id]);
    if !Terminal(d.transfers[id].phase) { LiveTransferPins(s, d, id); }
  }

  predicate ImportProofNames(t: CellTransferRecord, proof: ImportProof) {
    && proof.transferId == t.transferId && proof.packageHash == t.packageHash
    && t.quarantineReceiptHash == Some(proof.quarantineReceiptHash)
    && proof.destinationCellId == t.destinationCellId
    && proof.resultingPlacementGeneration == t.resultingPlacementGeneration
    && proof.destinationAssignmentGeneration >= t.destinationAssignmentGeneration
    && proof.destinationEventSequence > 0
  }

  lemma ImportCall(s: Setting, d: Document, id: string, submitted: ImportProof, g: u64)
    requires ValidSetting(s) && Inv(s, d)
    ensures var plan := ImportPlan(s.hash, d, id, submitted);
            if id !in d.transfers then plan == Refuse(UnknownTransfer(id))
            else
              var t := d.transfers[id];
              && t.destinationCellId in d.assignments && t.aggregateId in d.placements
              && var a := d.assignments[t.destinationCellId];
              var claimed, fence := submitted.destinationAssignmentGeneration, submitted.destinationFencingToken;
              && (Unresolved(a, claimed, fence) ==> plan == Refuse(TransferConflict(id)))
              && (Resolves(a, claimed, fence, g) ==>
                    var proof := submitted.(destinationAssignmentGeneration := g);
                    var hashes := ValidHash(proof.destinationEventHash) && ValidHash(proof.destinationWorldHash);
                    && (plan.Install? <==> t.phase.Committed? && hashes && ImportProofNames(t, proof))
                    && (plan.Keep? <==> (t.phase.Imported? || t.phase.Finalized?) && t.importProof == Some(proof))
                    && (plan.Refuse? ==>
                          plan.error == if t.phase.Committed? && !hashes then InvalidDirectory
                            else TransferConflict(id))
                    && (plan.Keep? ==> plan.record == t)
                    && (plan.Install? ==>
                          && plan.record == t.(phase := Imported, importProof := Some(proof))
                          && plan.next == d.(
                               placements := d.placements[t.aggregateId := d.placements[t.aggregateId].(
                                 state := Resident, activeTransferId := None)],
                               transfers := d.transfers[id := plan.record])))
  {
    hide Inv, ValidSetting, ValidHash, ValidHistory, AssignmentOf, ResolveGeneration, Unresolved, PhaseShape;
    if id in d.transfers {
      Cells(s, d, id);
      var a := d.assignments[d.transfers[id].destinationCellId];
      var claimed, fence := submitted.destinationAssignmentGeneration, submitted.destinationFencingToken;
      ResolvesExactly(a, claimed, fence, g);
      if Unresolved(a, claimed, fence) { UnresolvedIsNone(a, claimed, fence); }
      if Resolves(a, claimed, fence, g) { PositiveFence(a, g); }
    }
  }

  predicate FinalizationProofNames(t: CellTransferRecord, proof: FinalizationProof) {
    && proof.transferId == t.transferId && proof.packageHash == t.packageHash
    && proof.sourceCellId == t.sourceCellId
    && proof.resultingPlacementGeneration == t.resultingPlacementGeneration
    && proof.sourceAssignmentGeneration >= t.sourceAssignmentGeneration && proof.sourceEventSequence > 0
  }

  lemma FinalizeCall(s: Setting, d: Document, id: string, submitted: FinalizationProof, g: u64)
    requires ValidSetting(s) && Inv(s, d)
    ensures var plan := FinalizePlan(s.hash, d, id, submitted);
            if id !in d.transfers then plan == Refuse(UnknownTransfer(id))
            else
              var t := d.transfers[id];
              && t.sourceCellId in d.assignments && t.aggregateId in d.placements
              && var a, p := d.assignments[t.sourceCellId], d.placements[t.aggregateId];
              var claimed, fence := submitted.sourceAssignmentGeneration, submitted.sourceFencingToken;
              && (Unresolved(a, claimed, fence) ==> plan == Refuse(TransferConflict(id)))
              && (Resolves(a, claimed, fence, g) ==>
                    var proof := submitted.(sourceAssignmentGeneration := g);
                    var hashes := ValidHash(proof.sourceEventHash) && ValidHash(proof.sourceWorldHash);
                    var due := t.phase.Imported? && p.state.Resident?
                               && p.placementGeneration == t.resultingPlacementGeneration;
                    && (plan.Install? <==> due && hashes && FinalizationProofNames(t, proof))
                    && (plan.Keep? <==> t.phase.Finalized? && t.finalizationProof == Some(proof))
                    && (plan.Refuse? ==>
                          plan.error == if due && !hashes then InvalidDirectory else TransferConflict(id))
                    && (plan.Keep? ==> plan.record == t)
                    && (plan.Install? ==>
                          && plan.record == t.(phase := Finalized, finalizationProof := Some(proof))
                          && plan.next == d.(transfers := d.transfers[id := plan.record])))
  {
    hide Inv, ValidSetting, ValidHash, ValidHistory, AssignmentOf, ResolveGeneration, Unresolved, PhaseShape;
    if id in d.transfers {
      Cells(s, d, id);
      var a := d.assignments[d.transfers[id].sourceCellId];
      var claimed, fence := submitted.sourceAssignmentGeneration, submitted.sourceFencingToken;
      ResolvesExactly(a, claimed, fence, g);
      if Unresolved(a, claimed, fence) { UnresolvedIsNone(a, claimed, fence); }
      if Resolves(a, claimed, fence, g) { PositiveFence(a, g); }
    }
  }

  /** An abort request depends on the phase alone. */
  lemma RequestAbortCall(s: Setting, d: Document, id: string)
    requires ValidSetting(s) && Inv(s, d)
    ensures RequestAbortPlan(d, id)
            == if id !in d.transfers then Refuse(UnknownTransfer(id))
               else
                 var t := d.transfers[id];
                 match t.phase
                 case Aborting | Aborted => Keep(t)
                 case Prepared | Quarantined =>
                   Install(d.(transfers := d.transfers[id := t.(phase := Aborting)]), t.(phase := Aborting))
                 case Committed | Imported | Finalized => Refuse(TransferConflict(id))
  {
    hide Inv, ValidSetting, ValidHistory, AssignmentOf, PhaseShape;
    if id in d.transfers { Cells(s, d, id); }
  }

  /** The cell a role cleans up, its bound generation and the proof it left. */
  function RoleCell(t: CellTransferRecord, role: AbortRole): CellId {
    match role
    case Source => t.sourceCellId
    case Destination => t.destinationCellId
  }

  predicate AbortProofNames(t: CellTransferRecord, proof: AbortProof) {
    && proof.transferId == t.transferId && proof.packageHash == t.packageHash
    && proof.cellId == RoleCell(t, proof.role) && proof.eventSequence > 0
    && (proof.role.Source? ==> proof.assignmentGeneration >= t.sourceAssignmentGeneration)
    && (proof.role.Destination? ==> proof.assignmentGeneration >= t.destinationAssignmentGeneration)
  }

  lemma AbortCleanupCall(s: Setting, d: Document, id: string, submitted: AbortProof, g: u64)
    requires ValidSetting(s) && Inv(s, d)
    ensures var plan := AbortCleanupPlan(s.hash, d, id, submitted);
            if id !in d.transfers then plan == Refuse(UnknownTransfer(id))
            else if !d.transfers[id].phase.Aborting? then plan == Refuse(TransferConflict(id))
            else
              var t := d.transfers[id];
              && RoleCell(t, submitted.role) in d.assignments
              && var a := d.assignments[RoleCell(t, submitted.role)];
              var claimed, fence := submitted.assignmentGeneration, submitted.fencingToken;
              && (Unresolved(a, claimed, fence) ==> plan == Refuse(TransferConflict(id)))
              && (Resolves(a, claimed, fence, g) ==>
                    var proof := submitted.(assignmentGeneration := g);
                    var hashes := ValidHash(proof.eventHash) && ValidHash(proof.worldHash);
                    var left := match proof.role
                      case Source => t.sourceAbortProof
                      case Destination => t.destinationAbortProof;
                    && (plan.Install? <==> hashes && AbortProofNames(t, proof) && left.None?)
                    && (plan.Keep? <==> hashes && AbortProofNames(t, proof) && left == Some(proof))
                    && (plan.Refuse? ==> plan.error == if hashes then TransferConflict(id) else InvalidDirectory)
                    && (plan.Keep? ==> plan.record == t)
                    && (plan.Install? ==>
                          && (match proof.role
                              case Source => plan.record == t.(sourceAbortProof := Some(proof))
                              case Destination => plan.record == t.(destinationAbortProof := Some(proof)))
                          && plan.next == d.(transfers := d.transfers[id := plan.record])))
  {
    hide Inv, ValidSetting, ValidHash, ValidHistory, AssignmentOf, ResolveGeneration, Unresolved, PhaseShape,
      PlacementMatches;
    if id in d.transfers {
      Cells(s, d, id);
      var a := d.assignments[RoleCell(d.transfers[id], submitted.role)];
      var claimed, fence := submitted.assignmentGeneration, submitted.fencingToken;
      ResolvesExactly(a, claimed, fence, g);
      if Unresolved(a, claimed, fence) { UnresolvedIsNone(a, claimed, fence); }
      if Resolves(a, claimed, fence, g) { PositiveFence(a, g); }
    }
  }

  lemma FinalizeAbortCall(s: Setting, d: Document, id: string)
    requires ValidSetting(s) && Inv(s, d)
    ensures var plan := FinalizeAbortPlan(d, id);
            if id !in d.transfers then plan == Refuse(UnknownTransfer(id))
            else
              var t := d.transfers[id];
              && t.aggregateId in d.placements
              && (plan.Keep? <==> t.phase.Aborted?)
              && (plan.Install? <==> t.phase.Aborting? && t.sourceAbortProof.Some? && t.destinationAbortProof.Some?)
              && (plan.Refuse? ==> plan.error == TransferConflict(id))
              && (plan.Keep? ==> plan.record == t)
              && (plan.Install? ==>
                    && plan.record == t.(phase := Aborted)
                    && plan.next == d.(
                         placements := d.placements[t.aggregateId := d.placements[t.aggregateId].(
                           state := Resident, activeTransferId := None)],
                         transfers := d.transfers[id := plan.record]))
  {
    hide Inv, ValidSetting, ValidHistory, AssignmentOf, PhaseShape;
    if id in d.transfers { Cells(s, d, id); }
  }

  // ---- one write -------------------------------------------------------------------------

  /** What the caller sees of any plan: a refusal and a stored record leave the document alone; a
      proposal is installed whole with the revision raised by one, or not at all. */
  lemma OneWrite<R>(d: Document, plan: Plan<R>, durable: bool)
    ensures var (after, r) := Finish(d, plan, durable);
            match plan
            case Refuse(error) => after == d && r == Err(error)
            case Keep(record) => after == d && r == Ok(record)
            case Install(next, record) =>
              if d.directoryRevision < U64_MAX && durable then
                && after.directoryRevision == d.directoryRevision + 1 && r == Ok(record)
                && after.assignments == next.assignments && after.placements == next.placements
                && after.transfers == next.transfers
                && after.(directoryRevision := next.directoryRevision) == next
              else
                && after == d
                && r == Err(if d.directoryRevision == U64_MAX then DirectoryRevisionExhausted else Io)
  {}

  // ---- the validator ---------------------------------------------------------------------

  /** Which proofs an accepted record carries, phase by phase. */
  predicate CarriesProofs(t: CellTransferRecord) {
    && (t.quarantineReceiptHash.Some? <==> t.destinationQuarantineProof.Some?)
    && match t.phase
       case Prepared =>
         && t.destinationQuarantineProof.None? && t.importProof.None? && t.finalizationProof.None?
         && t.sourceAbortProof.None? && t.destinationAbortProof.None?
       case Quarantined | Committed =>
         && t.sourcePrepareProof.Some? && t.destinationQuarantineProof.Some?
         && t.importProof.None? && t.finalizationProof.None?
         && t.sourceAbortProof.None? && t.destinationAbortProof.None?
       case Imported =>
         && t.sourcePrepareProof.Some? && t.destinationQuarantineProof.Some?
         && t.importProof.Some? && t.finalizationProof.None?
         && t.sourceAbortProof.None? && t.destinationAbortProof.None?
       case Finalized =>
         && t.sourcePrepareProof.Some? && t.destinationQuarantineProof.Some?
         && t.importProof.Some? && t.finalizationProof.Some?
         && t.sourceAbortProof.None? && t.destinationAbortProof.None?
       case Aborting =>
         t.sourcePrepareProof.Some? && t.importProof.None? && t.finalizationProof.None?
       case Aborted =>
         && t.importProof.None? && t.finalizationProof.None?
         && t.sourceAbortProof.Some? && t.destinationAbortProof.Some?
  }

  /** The validator's clauses on the presence of proofs are this table. */
  lemma ProofsByPhase(t: CellTransferRecord)
    ensures PhaseShape(t) && SourceProofShape(t) <==> CarriesProofs(t)
  {}

  /** An assignment is accepted exactly asleep without holder, or held by someone at a generation
      that was really given; in both cases with a history that leads up to it. */
  lemma AssignmentAccepted(id: CellId, key: CellKey, a: CellAssignmentRecord)
    ensures ValidAssignment(id, key, a) <==>
              && a.cellId == id && a.cellKey == key && ValidHistory(a)
              && (|| (a.state.Sleeping? && a.holderId.None?)
                  || (a.state.Assigned? && a.assignmentGeneration > 0 && a.holderId.Some? && |a.holderId.value| > 0))
  {}

  lemma SameSize(small: set<CellId>, large: set<CellId>)
    requires small <= large && |small| == |large|
    ensures small == large
  {
    if x :| x in large && x !in small {
      assert small <= large - {x};
      SubsetSize(small, large - {x});
    }
  }

  lemma {:induction false} SubsetSize(small: set<CellId>, large: set<CellId>)
    requires small <= large
    ensures |small| <= |large|
    decreases small
  {
    if x :| x in small { SubsetSize(small - {x}, large - {x}); }
  }

  /** The validator checks the number of cells and that each expected one is there: together, that
      the cells are the expected ones. */
  lemma DocumentAccepted(d: Document, manifest: Manifest, expected: map<CellId, CellAssignmentRecord>)
    ensures ValidDocument(d, manifest, expected) <==>
              && d.schemaVersion == 2 && d.directoryRevision >= 1
              && d.universeId == manifest.universeId && d.universeManifestHash == manifest.manifestHash
              && d.assignments.Keys == expected.Keys
              && (forall id | id in d.assignments && id in expected ::
                    ValidAssignment(id, expected[id].cellKey, d.assignments[id]))
              && (forall a | a in d.placements :: ValidPlacement(d.assignments, a, d.placements[a]))
              && (forall id | id in d.transfers :: ValidTransfer(d, id, d.transfers[id]))
  {
    hide ValidAssignment, ValidPlacement, ValidTransfer;
    if ValidDocument(d, manifest, expected) {
      assert |d.assignments| == |d.assignments.Keys| && |expected| == |expected.Keys|;
      SameSize(expected.Keys, d.assignments.Keys);
    }
    if d.assignments.Keys == expected.Keys {
      assert |d.assignments| == |d.assignments.Keys| == |expected.Keys| == |expected|;
    }
  }

  /** The validator accepts a resident placement of generation one exactly when a registration would
      write it. */
  lemma ValidatorMatchesRegister(s: Setting, d: Document, a: string, p: AggregatePlacementRecord)
    requires ValidSetting(s) && AssignmentsHold(s, d)
    requires p.state.Resident? && p.placementGeneration == 1 && a !in d.placements
    ensures ValidPlacement(d.assignments, a, p) <==>
              RegisterPlan(s.hash, d, a, p.aggregateKind, p.cellKey)
                == Install(d.(placements := d.placements[a := p]), p)
  {
    hide ValidStableId, ValidCellKey, ValidHistory;
    if p.cellId in d.assignments { AssignmentKnown(s, d, p.cellId); }
    if AssignmentOf(s.hash, d, p.cellKey).Ok? { AssignmentFound(s, d, p.cellKey); }
    hide AssignmentsHold, ValidSetting;
    if RegisterPlan(s.hash, d, a, p.aggregateKind, p.cellKey).Install?
      && RegisterPlan(s.hash, d, a, p.aggregateKind, p.cellKey).next == d.(placements := d.placements[a := p]) {
      assert RegisterPlan(s.hash, d, a, p.aggregateKind, p.cellKey).next.placements[a] == p;
    }
  }

  /** A transfer as it is before any proof. */
  predicate Proofless(t: CellTransferRecord) {
    && t.phase.Prepared? && t.quarantineReceiptHash.None?
    && t.sourcePrepareProof.None? && t.destinationQuarantineProof.None? && t.importProof.None?
    && t.finalizationProof.None? && t.sourceAbortProof.None? && t.destinationAbortProof.None?
  }

  /** The document a prepare of this transfer would have started from. */
  function Unprepared(d: Document, t: CellTransferRecord, id: string): Document
    requires t.aggregateId in d.placements
  {
    d.(placements := d.placements[t.aggregateId := d.placements[t.aggregateId].(state := Resident,
         activeTransferId := None)],
       transfers := map x | x in d.transfers && x != id :: d.transfers[x])
  }

  /** The validator accepts a transfer without proofs, under the generations in force, exactly when
      a prepare would write it. */
  lemma ValidatorMatchesPrepare(s: Setting, d: Document, id: string, t: CellTransferRecord)
    requires ValidSetting(s) && AssignmentsHold(s, d) && Proofless(t) && TransferNamesRecords(d, t)
    requires ValidPlacement(d.assignments, t.aggregateId, d.placements[t.aggregateId])
    requires d.assignments[t.sourceCellId].state.Assigned? && d.assignments[t.destinationCellId].state.Assigned?
    requires t.sourceAssignmentGeneration == d.assignments[t.sourceCellId].assignmentGeneration
    requires t.destinationAssignmentGeneration == d.assignments[t.destinationCellId].assignmentGeneration
    ensures var p := d.placements[t.aggregateId];
            var plan := PreparePlan(s.hash, Unprepared(d, t, id), t.aggregateId, t.priorPlacementGeneration, id,
                t.destinationCellKey, t.packageHash);
            ValidTransfer(d, id, t) <==>
              plan.Install? && plan.record == t && p.state.Preparing? && p.activeTransferId == Some(id)
  {
    hide ValidStableId, ValidHash, ValidCellKey, ValidHistory;
    var p := d.placements[t.aggregateId];
    AssignmentKnown(s, d, t.sourceCellId);
    AssignmentKnown(s, d, t.destinationCellId);
    AssignmentKnown(s, d, p.cellId);
    assert d.assignments[t.sourceCellId].assignmentGeneration != 0 by {
      assert ValidAssignment(t.sourceCellId, s.expected[t.sourceCellId].cellKey, d.assignments[t.sourceCellId]);
    }
    assert d.assignments[t.destinationCellId].assignmentGeneration != 0 by {
      assert ValidAssignment(t.destinationCellId, s.expected[t.destinationCellId].cellKey,
          d.assignments[t.destinationCellId]);
    }
    if AssignmentOf(s.hash, d, t.destinationCellKey).Ok? { AssignmentFound(s, d, t.destinationCellKey); }
    var n := Unprepared(d, t, id);
    SameAssignments(s.hash, d, n, p.cellKey);
    SameAssignments(s.hash, d, n, t.destinationCellKey);
    assert id !in n.transfers;
    hide AssignmentsHold, ValidSetting, AssignmentOf;
  }

  lemma SameAssignments(hash: CellHash, d: Document, n: Document, key: CellKey)
    requires n.assignments == d.assignments
    ensures AssignmentOf(hash, n, key) == AssignmentOf(hash, d, key)
  {
    hide ValidCellKey;
  }

  /** Where an aggregate is when the transfer that last moved it, or failed to, is over. */
  lemma TerminalsRest(s: Setting, d: Document, id: string)
    requires ValidSetting(s) && Inv(s, d) && id in d.transfers
    ensures d.transfers[id].aggregateId in d.placements
    ensures var t, p := d.transfers[id], d.placements[d.transfers[id].aggregateId];
            && (t.phase.Imported? || t.phase.Finalized? ==>
                  && p.placementGeneration >= t.resultingPlacementGeneration
                  && (p.placementGeneration == t.resultingPlacementGeneration ==> p.cellId == t.destinationCellId))
            && (t.phase.Aborted? ==>
                  && p.placementGeneration >= t.priorPlacementGeneration
                  && (p.placementGeneration == t.priorPlacementGeneration ==> p.cellId == t.sourceCellId))
  {
    hide Inv, ValidSetting, ValidHistory, AssignmentOf, PhaseShape, WeakSourceProofShape;
    Cells(s, d, id);
  }

  lemma PositiveFence(a: CellAssignmentRecord, g: u64)
    requires ValidHistory(a) && g in a.fencingHistory
    ensures a.fencingHistory[g] > 0
  {}
}
