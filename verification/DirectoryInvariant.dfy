/** What every step keeps. The validator alone is not inductive: commit and import rely on the
    link from a placement back to its transfer, on both cells of a live transfer staying
    assigned, and on the chain of landed transfers behind every placement generation. */
module DirectoryInvariant {
  import opened Prelude
  import opened Address
  import opened CellDirectory

  /** What never changes: the hash, the manifest and the cells of the proof. */
  datatype Setting = Setting(hash: CellHash, manifest: Manifest, expected: map<CellId, CellAssignmentRecord>)

  ghost predicate ValidSetting(s: Setting) {
    && Injective(s.hash)
    && forall id | id in s.expected :: ValidCellKey(s.expected[id].cellKey) && s.hash(s.expected[id].cellKey) == id
  }

  /** The phases in which the transfer owns its aggregate's placement. */
  predicate Active(phase: TransferPhase) {
    phase.Prepared? || phase.Quarantined? || phase.Aborting? || phase.Committed?
  }

  /** The phases reached only through a commit. */
  predicate Landed(phase: TransferPhase) {
    phase.Committed? || phase.Imported? || phase.Finalized?
  }

  ghost predicate AssignmentsHold(s: Setting, d: Document) {
    && d.assignments.Keys == s.expected.Keys
    && forall id | id in d.assignments :: ValidAssignment(id, s.expected[id].cellKey, d.assignments[id])
  }

  ghost predicate PlacementsHold(d: Document) {
    forall id | id in d.placements :: ValidPlacement(d.assignments, id, d.placements[id])
  }

  /** The validator's clause with the one case it forgets: an abort requested before any source
      prepare proof arrived. */
  predicate WeakSourceProofShape(t: CellTransferRecord) {
    t.sourcePrepareProof.None? ==> t.phase.Prepared? || t.phase.Aborting? || t.phase.Aborted?
  }

  predicate ConsistentTransfer(d: Document, id: string, t: CellTransferRecord) {
    && TransferNamesRecords(d, t)
    && var source, destination, p := d.assignments[t.sourceCellId], d.assignments[t.destinationCellId],
      d.placements[t.aggregateId];
    && TransferBound(id, t, source, destination, p)
    && ProofsBound(t, source, destination)
    && PlacementMatches(id, t, p)
    && PhaseShape(t)
    && WeakSourceProofShape(t)
    && t.sourceAssignmentGeneration <= source.assignmentGeneration
    && t.destinationAssignmentGeneration <= destination.assignmentGeneration
    && (!Terminal(t.phase) ==> source.state.Assigned? && destination.state.Assigned?)
  }

  ghost predicate TransfersHold(d: Document) {
    forall id | id in d.transfers :: ConsistentTransfer(d, id, d.transfers[id])
  }

  /** The link the validator does not check: an active transfer id names a live transfer of the
      same aggregate. */
  ghost predicate LinksHold(d: Document) {
    forall a | a in d.placements && d.placements[a].activeTransferId.Some? ::
      var id := d.placements[a].activeTransferId.value;
      id in d.transfers && d.transfers[id].aggregateId == a && Active(d.transfers[id].phase)
  }

  predicate LandedAt(d: Document, id: string, a: string, g: int) {
    id in d.transfers && Landed(d.transfers[id].phase) && d.transfers[id].aggregateId == a
      && d.transfers[id].resultingPlacementGeneration == g
  }

  ghost predicate ChainBounded(d: Document) {
    forall id, a, g | LandedAt(d, id, a, g) :: a in d.placements && 2 <= g <= d.placements[a].placementGeneration
  }

  ghost predicate ChainUnique(d: Document) {
    forall x, y, a, g | LandedAt(d, x, a, g) && LandedAt(d, y, a, g) :: x == y
  }

  ghost predicate ChainLinked(d: Document) {
    forall x, y, a, g, h | LandedAt(d, x, a, g) && LandedAt(d, y, a, h) && h == g + 1 ::
      d.transfers[x].destinationCellId == d.transfers[y].sourceCellId
  }

  ghost predicate ChainEnds(d: Document) {
    forall x, a, g | LandedAt(d, x, a, g) && a in d.placements && d.placements[a].placementGeneration == g ::
      d.transfers[x].destinationCellId == d.placements[a].cellId
  }

  ghost predicate ChainFull(d: Document) {
    forall a, g: int | a in d.placements && 2 <= g <= d.placements[a].placementGeneration :: HasLanded(d, a, g)
  }

  ghost predicate HasLanded(d: Document, a: string, g: int) {
    exists id :: LandedAt(d, id, a, g)
  }

  ghost predicate Chain(d: Document) {
    ChainBounded(d) && ChainUnique(d) && ChainLinked(d) && ChainEnds(d) && ChainFull(d)
  }

  ghost predicate Inv(s: Setting, d: Document) {
    && ValidHeader(d, s.manifest)
    && AssignmentsHold(s, d)
    && PlacementsHold(d)
    && TransfersHold(d)
    && LinksHold(d)
    && Chain(d)
  }

  // ---- histories -------------------------------------------------------------------------

  lemma {:induction false} HistoryIncreases(a: CellAssignmentRecord, i: u64, j: u64)
    requires ValidHistory(a)
    requires i in a.fencingHistory && j in a.fencingHistory && i < j
    ensures a.fencingHistory[i] < a.fencingHistory[j]
    decreases j
  {
    assert j - 1 in a.fencingHistory && a.fencingHistory[j - 1] < a.fencingHistory[j];
    if i < j - 1 { HistoryIncreases(a, i, j - 1); }
  }

  lemma AdvancedIsValid(s: Setting, id: CellId, key: CellKey, a: CellAssignmentRecord, holderId: string, fence: u64)
    requires ValidAssignment(id, key, a) && a.assignmentGeneration < U64_MAX
    requires ValidStableId(holderId) && fence > a.authorityFencingToken
    ensures ValidAssignment(id, key, Advanced(a, holderId, fence))
    ensures forall g | g in a.fencingHistory ::
              g in Advanced(a, holderId, fence).fencingHistory
                && Advanced(a, holderId, fence).fencingHistory[g] == a.fencingHistory[g]
  {
    var b := Advanced(a, holderId, fence);
    assert a.assignmentGeneration + 1 !in a.fencingHistory;
    assert holderId != "";
    if a.assignmentGeneration > 0 { assert a.assignmentGeneration in a.fencingHistory; }
  }

  // ---- edits of one kind -----------------------------------------------------------------

  /** The assignment only moves forward: same cell, longer history. */
  predicate AssignmentEvolves(a: CellAssignmentRecord, b: CellAssignmentRecord) {
    && a.cellId == b.cellId && a.cellKey == b.cellKey
    && a.assignmentGeneration <= b.assignmentGeneration
    && (forall g | g in a.fencingHistory :: g in b.fencingHistory && b.fencingHistory[g] == a.fencingHistory[g])
  }

  /** A consistent transfer stays so when its cells only move forward and its aggregate's
      placement still matches its phase. */
  lemma ConsistentFrame(d: Document, e: Document, id: string, t: CellTransferRecord)
    requires ConsistentTransfer(d, id, t)
    requires t.sourceCellId in e.assignments && t.destinationCellId in e.assignments && t.aggregateId in e.placements
    requires AssignmentEvolves(d.assignments[t.sourceCellId], e.assignments[t.sourceCellId])
    requires AssignmentEvolves(d.assignments[t.destinationCellId], e.assignments[t.destinationCellId])
    requires !Terminal(t.phase) ==>
        e.assignments[t.sourceCellId].state.Assigned? && e.assignments[t.destinationCellId].state.Assigned?
    requires e.placements[t.aggregateId].aggregateKind == d.placements[t.aggregateId].aggregateKind
    requires PlacementMatches(id, t, e.placements[t.aggregateId])
    ensures ConsistentTransfer(e, id, t)
  {
    hide ValidHash, ValidStableId;
  }

  lemma PlacementFrame(assignments: map<CellId, CellAssignmentRecord>, later: map<CellId, CellAssignmentRecord>,
                       a: string, p: AggregatePlacementRecord)
    requires ValidPlacement(assignments, a, p)
    requires p.cellId in later && later[p.cellId].cellKey == assignments[p.cellId].cellKey
    ensures ValidPlacement(later, a, p)
  {
    hide ValidStableId;
  }

  lemma TransferFacts(d: Document, id: string, t: CellTransferRecord)
    requires ConsistentTransfer(d, id, t)
    ensures TransferNamesRecords(d, t) && t.transferId == id
    ensures !Terminal(t.phase) ==>
        d.assignments[t.sourceCellId].state.Assigned? && d.assignments[t.destinationCellId].state.Assigned?
    ensures d.placements[t.aggregateId].aggregateKind == t.aggregateKind
    ensures PlacementMatches(id, t, d.placements[t.aggregateId])
    ensures t.priorPlacementGeneration + 1 == t.resultingPlacementGeneration
    ensures d.assignments[t.sourceCellId].cellKey == t.sourceCellKey
        && d.assignments[t.destinationCellId].cellKey == t.destinationCellKey
  {
    hide ValidHash, ValidStableId, ProofsBound, PhaseShape;
  }

  lemma AssignmentEditKeeps(s: Setting, d: Document, id: CellId, b: CellAssignmentRecord)
    requires Inv(s, d) && id in d.assignments
    requires ValidAssignment(id, s.expected[id].cellKey, b) && AssignmentEvolves(d.assignments[id], b)
    requires b.state.Assigned? || !Pinned(d, id)
    ensures Inv(s, WithAssignment(d, b, id))
  {
    hide ConsistentTransfer, ValidAssignment, ValidPlacement;
    var e := WithAssignment(d, b, id);
    forall x | x in e.transfers ensures ConsistentTransfer(e, x, e.transfers[x]) {
      var t := d.transfers[x];
      TransferFacts(d, x, t);
      assert PinnedBy(t, id) ==> Pinned(d, id);
      ConsistentFrame(d, e, x, t);
    }
    forall x | x in e.placements ensures ValidPlacement(e.assignments, x, e.placements[x]) {
      assert d.placements[x].cellId in d.assignments by { CellKnown(d, x); }
      PlacementFrame(d.assignments, e.assignments, x, d.placements[x]);
    }
    ChainUnchanged(d, e);
  }

  lemma CellKnown(d: Document, a: string)
    requires PlacementsHold(d) && a in d.placements
    ensures d.placements[a].cellId in d.assignments
        && d.assignments[d.placements[a].cellId].cellKey == d.placements[a].cellKey
    ensures d.placements[a].aggregateId == a && d.placements[a].placementGeneration >= 1
  {
    hide ValidStableId;
    assert ValidPlacement(d.assignments, a, d.placements[a]);
  }

  /** The chain depends only on the landed transfers and on generation and cell of the placements. */
  lemma ChainUnchanged(d: Document, e: Document)
    requires Chain(d)
    requires forall x, a, g :: LandedAt(d, x, a, g) <==> LandedAt(e, x, a, g)
    requires forall x, a, g | LandedAt(d, x, a, g) && LandedAt(e, x, a, g) ::
               && d.transfers[x].sourceCellId == e.transfers[x].sourceCellId
               && d.transfers[x].destinationCellId == e.transfers[x].destinationCellId
    requires forall a | a in d.placements ::
               && a in e.placements
               && e.placements[a].placementGeneration == d.placements[a].placementGeneration
               && e.placements[a].cellId == d.placements[a].cellId
    requires forall a | a in e.placements && a !in d.placements :: e.placements[a].placementGeneration == 1
    ensures Chain(e)
  {
    forall a, g: int | a in e.placements && 2 <= g <= e.placements[a].placementGeneration ensures HasLanded(e, a, g) {
      assert HasLanded(d, a, g);
      var id :| LandedAt(d, id, a, g);
      assert LandedAt(e, id, a, g);
    }
  }

  lemma NewPlacementKeeps(s: Setting, d: Document, a: string, p: AggregatePlacementRecord)
    requires Inv(s, d) && a !in d.placements
    requires ValidPlacement(d.assignments, a, p) && p.state.Resident? && p.placementGeneration == 1
    ensures Inv(s, WithPlacement(d, p, a))
  {
    hide ConsistentTransfer, ValidAssignment, ValidStableId;
    var e := WithPlacement(d, p, a);
    forall x | x in e.transfers ensures ConsistentTransfer(e, x, e.transfers[x]) {
      TransferFacts(d, x, d.transfers[x]);
      ConsistentFrame(d, e, x, d.transfers[x]);
    }
    ChainUnchanged(d, e);
  }

  predicate SameBinding(t: CellTransferRecord, u: CellTransferRecord) {
    && t.transferId == u.transferId && t.aggregateId == u.aggregateId && t.aggregateKind == u.aggregateKind
    && t.sourceCellKey == u.sourceCellKey && t.sourceCellId == u.sourceCellId
    && t.destinationCellKey == u.destinationCellKey && t.destinationCellId == u.destinationCellId
    && t.sourceAssignmentGeneration == u.sourceAssignmentGeneration
    && t.destinationAssignmentGeneration == u.destinationAssignmentGeneration
    && t.priorPlacementGeneration == u.priorPlacementGeneration
    && t.resultingPlacementGeneration == u.resultingPlacementGeneration
    && t.packageHash == u.packageHash
  }

  lemma TransferEditKeeps(s: Setting, d: Document, id: string, u: CellTransferRecord)
    requires Inv(s, d) && id in d.transfers
    requires SameBinding(d.transfers[id], u)
    requires ConsistentTransfer(d, id, u)
    requires Active(u.phase) <==> Active(d.transfers[id].phase)
    requires Landed(u.phase) <==> Landed(d.transfers[id].phase)
    ensures Inv(s, WithTransfer(d, u, id))
  {
    hide ConsistentTransfer, ValidAssignment, ValidPlacement;
    var e := WithTransfer(d, u, id);
    forall x | x in e.transfers ensures ConsistentTransfer(e, x, e.transfers[x]) {
      assert ConsistentTransfer(d, x, e.transfers[x]);
      TransferFacts(d, x, e.transfers[x]);
      ConsistentFrame(d, e, x, e.transfers[x]);
    }
    ChainUnchanged(d, e);
  }

  /** No other transfer is live on this aggregate. */
  lemma OnlyOneActive(s: Setting, d: Document, id: string, x: string)
    requires Inv(s, d) && x in d.transfers && x != id
    requires d.transfers[x].aggregateId in d.placements
    requires d.placements[d.transfers[x].aggregateId].activeTransferId in {None, Some(id)}
    ensures !Active(d.transfers[x].phase)
  {
    hide ConsistentTransfer, ValidAssignment, ValidPlacement, Chain;
    TransferFacts(d, x, d.transfers[x]);
  }

  /** An edit of one transfer and its aggregate's placement, up to the chain. */
  lemma PairEditKeeps(s: Setting, d: Document, a: string, q: AggregatePlacementRecord, id: string,
      u: CellTransferRecord)
    requires Inv(s, d) && a in d.placements
    requires d.placements[a].activeTransferId in {None, Some(id)}
    requires id in d.transfers ==> SameBinding(d.transfers[id], u)
    requires u.aggregateId == a
    requires ValidPlacement(d.assignments, a, q) && q.aggregateKind == d.placements[a].aggregateKind
    requires q.activeTransferId == if Active(u.phase) then Some(id) else None
    requires q.placementGeneration > d.placements[a].placementGeneration
             || (q.placementGeneration == d.placements[a].placementGeneration && q.cellId == d.placements[a].cellId)
    requires ConsistentTransfer(WithPlacement(d, q, a), id, u)
    requires Chain(WithTransfer(WithPlacement(d, q, a), u, id))
    ensures Inv(s, WithTransfer(WithPlacement(d, q, a), u, id))
  {
    hide ConsistentTransfer, ValidAssignment, ValidPlacement, Chain;
    var e := WithTransfer(WithPlacement(d, q, a), u, id);
    forall x | x in e.transfers ensures ConsistentTransfer(e, x, e.transfers[x]) {
      if x == id {
        TransferFacts(WithPlacement(d, q, a), id, u);
        ConsistentFrame(WithPlacement(d, q, a), e, id, u);
      } else {
        TransferFacts(d, x, d.transfers[x]);
        if d.transfers[x].aggregateId == a { OnlyOneActive(s, d, id, x); }
        ConsistentFrame(d, e, x, d.transfers[x]);
      }
    }
    forall b | b in e.placements && e.placements[b].activeTransferId.Some?
      ensures var y := e.placements[b].activeTransferId.value;
              y in e.transfers && e.transfers[y].aggregateId == b && Active(e.transfers[y].phase)
    {
      if b != a {
        var y := d.placements[b].activeTransferId.value;
        assert y in d.transfers && d.transfers[y].aggregateId == b;
      }
    }
  }

  /** A commit extends the chain by one: the new generation, from the current cell. */
  lemma ChainGrows(d: Document, a: string, q: AggregatePlacementRecord, id: string, u: CellTransferRecord)
    requires Chain(d) && a in d.placements && id in d.transfers
    requires SameBinding(d.transfers[id], u) && !Landed(d.transfers[id].phase) && Landed(u.phase) && u.aggregateId == a
    requires u.resultingPlacementGeneration == d.placements[a].placementGeneration + 1
    requires d.placements[a].placementGeneration >= 1
    requires u.sourceCellId == d.placements[a].cellId
    requires q.placementGeneration == u.resultingPlacementGeneration && q.cellId == u.destinationCellId
    ensures Chain(WithTransfer(WithPlacement(d, q, a), u, id))
  {
    var e := WithTransfer(WithPlacement(d, q, a), u, id);
    var n := u.resultingPlacementGeneration;
    forall x, b, g | LandedAt(e, x, b, g) ensures x == id || LandedAt(d, x, b, g) {}
    assert LandedAt(e, id, a, n);
    forall b, g: int | b in e.placements && 2 <= g <= e.placements[b].placementGeneration ensures HasLanded(e, b, g) {
      if b == a && g == n {
        assert LandedAt(e, id, a, n);
      } else {
        assert HasLanded(d, b, g);
        var x :| LandedAt(d, x, b, g);
        assert LandedAt(e, x, b, g);
      }
    }
  }

  lemma NewTransferKeepsChain(d: Document, a: string, q: AggregatePlacementRecord, id: string, u: CellTransferRecord)
    requires Chain(d) && a in d.placements
    requires id in d.transfers ==> SameBinding(d.transfers[id], u)
    requires Landed(u.phase) <==> id in d.transfers && Landed(d.transfers[id].phase)
    requires q.placementGeneration == d.placements[a].placementGeneration && q.cellId == d.placements[a].cellId
    ensures Chain(WithTransfer(WithPlacement(d, q, a), u, id))
  {
    ChainUnchanged(d, WithTransfer(WithPlacement(d, q, a), u, id));
  }
}
