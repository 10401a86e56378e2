/** What never goes back: phases, proofs, fences and generations over whole runs. */
module DirectoryHistory {
  import opened Prelude
  import opened Address
  import opened CellDirectory
  import opened DirectoryInvariant
  import opened DirectorySteps
  import opened DirectoryRuns

  /** Later on one of the two paths, or equal. */
  predicate Leads(p: TransferPhase, q: TransferPhase) {
    || p == q
    || (p.Prepared? && !q.Prepared?)
    || (p.Quarantined? && !q.Prepared? && !q.Quarantined?)
    || (p.Committed? && (q.Imported? || q.Finalized?))
    || (p.Imported? && q.Finalized?)
    || (p.Aborting? && q.Aborted?)
  }

  predicate Kept<T(==)>(before: Option<T>, after: Option<T>) {
    before.Some? ==> after == before
  }

  predicate TransferEvolves(t: CellTransferRecord, u: CellTransferRecord) {
    && SameBinding(t, u)
    && Leads(t.phase, u.phase)
    && Kept(t.quarantineReceiptHash, u.quarantineReceiptHash)
    && Kept(t.sourcePrepareProof, u.sourcePrepareProof)
    && Kept(t.destinationQuarantineProof, u.destinationQuarantineProof)
    && Kept(t.importProof, u.importProof)
    && Kept(t.finalizationProof, u.finalizationProof)
    && Kept(t.sourceAbortProof, u.sourceAbortProof)
    && Kept(t.destinationAbortProof, u.destinationAbortProof)
  }

  predicate PlacementEvolves(p: AggregatePlacementRecord, q: AggregatePlacementRecord) {
    p.aggregateKind == q.aggregateKind && p.placementGeneration <= q.placementGeneration
  }

  predicate Evolves(d: Document, e: Document) {
    && d.directoryRevision <= e.directoryRevision
    && (forall id | id in d.assignments ::
          id in e.assignments && AssignmentEvolves(d.assignments[id], e.assignments[id]))
    && (forall a | a in d.placements :: a in e.placements && PlacementEvolves(d.placements[a], e.placements[a]))
    && (forall id | id in d.transfers :: id in e.transfers && TransferEvolves(d.transfers[id], e.transfers[id]))
  }

  lemma EvolvesTransitive(d: Document, e: Document, f: Document)
    requires Evolves(d, e) && Evolves(e, f)
    ensures Evolves(d, f)
  {}

  lemma AssignmentEditEvolves(d: Document, id: CellId, b: CellAssignmentRecord)
    requires id in d.assignments && AssignmentEvolves(d.assignments[id], b)
    ensures Evolves(d, WithAssignment(d, b, id))
  {}

  lemma PlacementEditEvolves(d: Document, a: string, q: AggregatePlacementRecord)
    requires a in d.placements ==> PlacementEvolves(d.placements[a], q)
    ensures Evolves(d, WithPlacement(d, q, a))
  {}

  lemma TransferEditEvolves(d: Document, id: string, u: CellTransferRecord)
    requires id in d.transfers ==> TransferEvolves(d.transfers[id], u)
    ensures Evolves(d, WithTransfer(d, u, id))
  {}

  lemma PairEditEvolves(d: Document, a: string, q: AggregatePlacementRecord, id: string, u: CellTransferRecord)
    requires a in d.placements ==> PlacementEvolves(d.placements[a], q)
    requires id in d.transfers ==> TransferEvolves(d.transfers[id], u)
    ensures Evolves(d, WithTransfer(WithPlacement(d, q, a), u, id))
  {
    hide TransferEvolves, PlacementEvolves;
    PlacementEditEvolves(d, a, q);
    TransferEditEvolves(WithPlacement(d, q, a), id, u);
    EvolvesTransitive(d, WithPlacement(d, q, a), WithTransfer(WithPlacement(d, q, a), u, id));
  }

  lemma AdvanceEvolves(s: Setting, d: Document, key: CellKey, holderId: string, fence: u64)
    requires ValidSetting(s) && Inv(s, d) && AssignmentOf(s.hash, d, key).Ok?
    requires ValidStableId(holderId) && fence > AssignmentOf(s.hash, d, key).value.authorityFencingToken
    requires AssignmentOf(s.hash, d, key).value.assignmentGeneration < U64_MAX
    ensures Evolves(d, WithAssignment(d, Advanced(AssignmentOf(s.hash, d, key).value, holderId, fence), s.hash(key)))
  {
    hide Inv, Evolves, ValidCellKey, ValidStableId, ValidHistory;
    InvParts(s, d);
    AssignmentFound(s, d, key);
    var a := AssignmentOf(s.hash, d, key).value;
    AdvancedIsValid(s, s.hash(key), key, a, holderId, fence);
    AssignmentEditEvolves(d, s.hash(key), Advanced(a, holderId, fence));
  }

  /** The calls that touch assignments and placements only. */
  lemma CellProposalEvolves(s: Setting, d: Document, action: Action)
    requires ValidSetting(s) && Inv(s, d) && Proposal(s.hash, d, action).Some?
    requires action.Claim? || action.Recover? || action.Release? || action.Register?
    ensures Evolves(d, Proposal(s.hash, d, action).value)
  {
    hide Inv, Evolves, ValidSetting, ValidStableId, AssignmentOf;
    match action {
      case Claim(key, _, holderId, fence) => AdvanceEvolves(s, d, key, holderId, fence);
      case Recover(key, _, holderId, fence) => AdvanceEvolves(s, d, key, holderId, fence);
      case Release(key, _, _) =>
        InvParts(s, d);
        AssignmentFound(s, d, key);
        AssignmentEditEvolves(d, s.hash(key), AssignmentOf(s.hash, d, key).value.(state := Sleeping, holderId := None));
      case Register(a, kind, key) =>
        PlacementEditEvolves(d, a, RegisterPlan(s.hash, d, a, kind, key).record);
    }
  }

  /** The transfer a call would edit. */
  function Subject(action: Action): Option<string> {
    match action
    case Claim(_, _, _, _) => None
    case Release(_, _, _) => None
    case Recover(_, _, _, _) => None
    case Register(_, _, _) => None
    case Prepare(_, _, id, _, _) => Some(id)
    case RecordSourcePrepared(id, _) => Some(id)
    case RecordQuarantine(id, _, _, _) => Some(id)
    case CommitTransfer(id, _) => Some(id)
    case RecordImported(id, _) => Some(id)
    case FinalizeTransfer(id, _) => Some(id)
    case RequestAbort(id) => Some(id)
    case RecordAbortCleanup(id, _) => Some(id)
    case FinalizeAbort(id) => Some(id)
  }

  /** How far a transfer is from a terminal phase: the most calls that can still change it. */
  function Rank(t: CellTransferRecord): nat {
    match t.phase
    case Prepared => if t.sourcePrepareProof.None? then 6 else 5
    case Quarantined => 4
    case Committed => 2
    case Imported => 1
    case Finalized => 0
    case Aborting => 1 + (if t.sourceAbortProof.None? then 1 else 0) + (if t.destinationAbortProof.None? then 1 else 0)
    case Aborted => 0
  }

  /** One stored transfer moves strictly forward, its aggregate's placement with it, and nothing
      else changes. */
  predicate Moves(d: Document, n: Document, id: string) {
    && id in d.transfers && id in n.transfers
    && TransferEvolves(d.transfers[id], n.transfers[id])
    && Rank(n.transfers[id]) < Rank(d.transfers[id])
    && d.transfers[id].aggregateId in d.placements && d.transfers[id].aggregateId in n.placements
    && PlacementEvolves(d.placements[d.transfers[id].aggregateId], n.placements[d.transfers[id].aggregateId])
    && n == WithTransfer(WithPlacement(d, n.placements[d.transfers[id].aggregateId], d.transfers[id].aggregateId),
      n.transfers[id], id)
  }

  lemma TransferMoves(d: Document, id: string, u: CellTransferRecord)
    requires id in d.transfers && d.transfers[id].aggregateId in d.placements
    requires TransferEvolves(d.transfers[id], u) && Rank(u) < Rank(d.transfers[id])
    ensures Moves(d, WithTransfer(d, u, id), id)
  {
    hide TransferEvolves;
    var a := d.transfers[id].aggregateId;
    assert d.placements[a := d.placements[a]] == d.placements;
  }

  lemma PairMoves(d: Document, id: string, q: AggregatePlacementRecord, u: CellTransferRecord)
    requires id in d.transfers && d.transfers[id].aggregateId in d.placements
    requires TransferEvolves(d.transfers[id], u) && Rank(u) < Rank(d.transfers[id])
    requires PlacementEvolves(d.placements[d.transfers[id].aggregateId], q)
    ensures Moves(d, WithTransfer(WithPlacement(d, q, d.transfers[id].aggregateId), u, id), id)
  {
    hide TransferEvolves;
  }

  lemma SourcePreparedMoves(s: Setting, d: Document, id: string, proof: PrepareProof)
    requires ValidSetting(s) && Inv(s, d) && SourcePreparedPlan(s.hash, d, id, proof).Install?
    ensures Moves(d, SourcePreparedPlan(s.hash, d, id, proof).next, id)
  {
    hide Inv, ValidSetting, AssignmentOf, ResolveGeneration, ConsistentTransfer, ValidHash, ValidStableId,
        HistoricalAuthority, Moves;
    TransferStart(s, d, id);
    TransferFacts(d, id, d.transfers[id]);
    ShapeFacts(d, id);
    TransferMoves(d, id, SourcePreparedPlan(s.hash, d, id, proof).record);
  }

  lemma QuarantineMoves(s: Setting, d: Document, id: string, packageHash: string, receiptHash: string,
      proof: QuarantineProof)
    requires ValidSetting(s) && Inv(s, d) && QuarantinePlan(s.hash, d, id, packageHash, receiptHash, proof).Install?
    ensures Moves(d, QuarantinePlan(s.hash, d, id, packageHash, receiptHash, proof).next, id)
  {
    hide Inv, ValidSetting, AssignmentOf, ResolveGeneration, ConsistentTransfer, ValidHash, ValidStableId,
        HistoricalAuthority, Moves;
    TransferStart(s, d, id);
    TransferFacts(d, id, d.transfers[id]);
    ShapeFacts(d, id);
    TransferMoves(d, id, QuarantinePlan(s.hash, d, id, packageHash, receiptHash, proof).record);
  }

  lemma CommitMoves(s: Setting, d: Document, id: string, expected: u64)
    requires ValidSetting(s) && Inv(s, d) && CommitPlan(s.hash, d, id, expected).Install?
    ensures Moves(d, CommitPlan(s.hash, d, id, expected).next, id)
  {
    hide Inv, ValidSetting, AssignmentOf, ResolveGeneration, ConsistentTransfer, ValidHash, ValidStableId,
        HistoricalAuthority, Moves;
    TransferStart(s, d, id);
    TransferFacts(d, id, d.transfers[id]);
    ShapeFacts(d, id);
    PairMoves(d, id, CommitPlan(s.hash, d, id, expected).next.placements[d.transfers[id].aggregateId],
      CommitPlan(s.hash, d, id, expected).record);
  }

  lemma ImportMoves(s: Setting, d: Document, id: string, proof: ImportProof)
    requires ValidSetting(s) && Inv(s, d) && ImportPlan(s.hash, d, id, proof).Install?
    ensures Moves(d, ImportPlan(s.hash, d, id, proof).next, id)
  {
    hide Inv, ValidSetting, AssignmentOf, ResolveGeneration, ConsistentTransfer, ValidHash, ValidStableId,
        HistoricalAuthority, Moves;
    TransferStart(s, d, id);
    TransferFacts(d, id, d.transfers[id]);
    ShapeFacts(d, id);
    PairMoves(d, id, d.placements[d.transfers[id].aggregateId].(state := Resident, activeTransferId := None),
      ImportPlan(s.hash, d, id, proof).record);
  }

  lemma FinalizeMoves(s: Setting, d: Document, id: string, proof: FinalizationProof)
    requires ValidSetting(s) && Inv(s, d) && FinalizePlan(s.hash, d, id, proof).Install?
    ensures Moves(d, FinalizePlan(s.hash, d, id, proof).next, id)
  {
    hide Inv, ValidSetting, AssignmentOf, ResolveGeneration, ConsistentTransfer, ValidHash, ValidStableId,
        HistoricalAuthority, Moves;
    TransferStart(s, d, id);
    TransferFacts(d, id, d.transfers[id]);
    ShapeFacts(d, id);
    TransferMoves(d, id, FinalizePlan(s.hash, d, id, proof).record);
  }

  lemma RequestAbortMoves(s: Setting, d: Document, id: string)
    requires ValidSetting(s) && Inv(s, d) && RequestAbortPlan(d, id).Install?
    ensures Moves(d, RequestAbortPlan(d, id).next, id)
  {
    hide Inv, ValidSetting, AssignmentOf, ResolveGeneration, ConsistentTransfer, ValidHash, ValidStableId,
        HistoricalAuthority, Moves;
    TransferStart(s, d, id);
    TransferFacts(d, id, d.transfers[id]);
    ShapeFacts(d, id);
    TransferMoves(d, id, RequestAbortPlan(d, id).record);
  }

  lemma AbortCleanupMoves(s: Setting, d: Document, id: string, proof: AbortProof)
    requires ValidSetting(s) && Inv(s, d) && AbortCleanupPlan(s.hash, d, id, proof).Install?
    ensures Moves(d, AbortCleanupPlan(s.hash, d, id, proof).next, id)
  {
    hide Inv, ValidSetting, AssignmentOf, ResolveGeneration, ConsistentTransfer, ValidHash, ValidStableId,
        HistoricalAuthority, Moves;
    TransferStart(s, d, id);
    TransferFacts(d, id, d.transfers[id]);
    ShapeFacts(d, id);
    TransferMoves(d, id, AbortCleanupPlan(s.hash, d, id, proof).record);
  }

  lemma FinalizeAbortMoves(s: Setting, d: Document, id: string)
    requires ValidSetting(s) && Inv(s, d) && FinalizeAbortPlan(d, id).Install?
    ensures Moves(d, FinalizeAbortPlan(d, id).next, id)
  {
    hide Inv, ValidSetting, AssignmentOf, ResolveGeneration, ConsistentTransfer, ValidHash, ValidStableId,
        HistoricalAuthority, Moves;
    TransferStart(s, d, id);
    TransferFacts(d, id, d.transfers[id]);
    ShapeFacts(d, id);
    PairMoves(d, id, d.placements[d.transfers[id].aggregateId].(state := Resident, activeTransferId := None),
      FinalizeAbortPlan(d, id).record);
  }

  /** A call that edits a stored transfer moves it strictly forward and touches no other. */
  lemma TransferProposal(s: Setting, d: Document, action: Action)
    requires ValidSetting(s) && Inv(s, d) && Proposal(s.hash, d, action).Some?
    requires Subject(action).Some? && Subject(action).value in d.transfers
    ensures Moves(d, Proposal(s.hash, d, action).value, Subject(action).value)
  {
    hide Inv, ValidSetting, Moves, SourcePreparedPlan, QuarantinePlan, CommitPlan, ImportPlan, FinalizePlan,
      RequestAbortPlan, AbortCleanupPlan, FinalizeAbortPlan;
    match action {
      case Prepare(_, _, _, _, _) =>
      case RecordSourcePrepared(id, proof) => SourcePreparedMoves(s, d, id, proof);
      case RecordQuarantine(id, packageHash, receiptHash, proof) =>
        QuarantineMoves(s, d, id, packageHash, receiptHash, proof);
      case CommitTransfer(id, expected) => CommitMoves(s, d, id, expected);
      case RecordImported(id, proof) => ImportMoves(s, d, id, proof);
      case FinalizeTransfer(id, proof) => FinalizeMoves(s, d, id, proof);
      case RequestAbort(id) => RequestAbortMoves(s, d, id);
      case RecordAbortCleanup(id, proof) => AbortCleanupMoves(s, d, id, proof);
      case FinalizeAbort(id) => FinalizeAbortMoves(s, d, id);
    }
  }

  /** A transfer id not yet used is only ever bound by a prepare. */
  lemma NewTransferProposal(s: Setting, d: Document, action: Action)
    requires Proposal(s.hash, d, action).Some? && Subject(action).Some? && Subject(action).value !in d.transfers
    ensures action.Prepare?
    ensures var plan := PreparePlan(s.hash, d, action.aggregateId, action.expected, action.id, action.key,
        action.packageHash);
            plan.Install? && Proposal(s.hash, d, action).value == plan.next
  {
    hide AssignmentOf, ResolveGeneration, ValidHash, ValidStableId, PreparePlan;
  }

  lemma PrepareEvolves(s: Setting, d: Document, a: string, expected: u64, id: string, key: CellKey, packageHash: string)
    requires PreparePlan(s.hash, d, a, expected, id, key, packageHash).Install?
    ensures id !in d.transfers && a in d.placements
    ensures Evolves(d, PreparePlan(s.hash, d, a, expected, id, key, packageHash).next)
  {
    hide AssignmentOf, ValidHash, ValidStableId, Evolves;
    PairEditEvolves(d, a, d.placements[a].(state := Preparing, activeTransferId := Some(id)), id,
                    PreparePlan(s.hash, d, a, expected, id, key, packageHash).record);
  }

  lemma ProposalEvolves(s: Setting, d: Document, action: Action)
    requires ValidSetting(s) && Inv(s, d) && Proposal(s.hash, d, action).Some?
    ensures Evolves(d, Proposal(s.hash, d, action).value)
  {
    hide Inv, ValidSetting, Proposal, Evolves, PreparePlan, TransferEvolves, PlacementEvolves;
    if Subject(action).None? {
      CellProposalEvolves(s, d, action);
    } else if Subject(action).value in d.transfers {
      var id, n := Subject(action).value, Proposal(s.hash, d, action).value;
      TransferProposal(s, d, action);
      var a := d.transfers[id].aggregateId;
      PairEditEvolves(d, a, n.placements[a], id, n.transfers[id]);
    } else {
      NewTransferProposal(s, d, action);
      PrepareEvolves(s, d, action.aggregateId, action.expected, action.id, action.key, action.packageHash);
    }
  }

  lemma StepEvolves(s: Setting, d: Document, event: Event)
    requires ValidSetting(s) && Inv(s, d)
    ensures Evolves(d, Step(s.hash, d, event))
  {
    hide Inv, ValidSetting, Proposal, TransferEvolves, AssignmentEvolves, PlacementEvolves;
    SameEvolves(d);
    if Proposal(s.hash, d, event.action).Some? {
      ProposalEvolves(s, d, event.action);
    }
  }

  lemma SameEvolves(d: Document)
    ensures Evolves(d, d)
  {}

  lemma {:induction false} RunEvolves(s: Setting, d: Document, events: seq<Event>)
    requires ValidSetting(s) && Inv(s, d)
    ensures Evolves(d, Run(s.hash, d, events))
    decreases |events|
  {
    hide Inv, ValidSetting, Evolves, Step;
    SameEvolves(d);
    if events != [] {
      var e := Step(s.hash, d, events[0]);
      StepKeeps(s, d, events[0]);
      StepEvolves(s, d, events[0]);
      RunEvolves(s, e, events[1..]);
      EvolvesTransitive(d, e, Run(s.hash, e, events[1..]));
    }
  }

  // ---- one outcome per transfer ----------------------------------------------------------

  predicate CommitSide(phase: TransferPhase) { Landed(phase) }

  predicate AbortSide(phase: TransferPhase) { phase.Aborting? || phase.Aborted? }

  /** No transfer both commits and aborts: once on one side it is never seen on the other. Its
      binding never changes and a recorded proof is never replaced. */
  lemma NeverCommitsAndAborts(s: Setting, d: Document, events: seq<Event>, id: string)
    requires ValidSetting(s) && Inv(s, d) && id in d.transfers
    ensures var e := Run(s.hash, d, events);
            && id in e.transfers
            && TransferEvolves(d.transfers[id], e.transfers[id])
            && (CommitSide(d.transfers[id].phase) ==> CommitSide(e.transfers[id].phase))
            && (AbortSide(d.transfers[id].phase) ==> AbortSide(e.transfers[id].phase))
            && !(CommitSide(e.transfers[id].phase) && AbortSide(e.transfers[id].phase))
  {
    hide Inv, ValidSetting;
    RunEvolves(s, d, events);
  }

  /** A placement's active transfer is its aggregate's one transfer that is not yet resident
      again, and there is at most one. */
  lemma ActiveTransferExactly(s: Setting, d: Document, a: string, id: string)
    requires Inv(s, d) && a in d.placements
    ensures d.placements[a].activeTransferId == Some(id)
            <==> id in d.transfers && d.transfers[id].aggregateId == a && Active(d.transfers[id].phase)
  {
    hide Inv, ConsistentTransfer, ValidPlacement, ValidAssignment, Chain;
    InvParts(s, d);
    if id in d.transfers { TransferFacts(d, id, d.transfers[id]); }
  }

  // ---- the generation chain --------------------------------------------------------------

  /** The landed transfers of an aggregate, in order: one for every generation from 2 up, no
      other, each leaving the cell the one before it reached, the last one at the current cell. */
  ghost predicate IsChainOf(d: Document, a: string, path: seq<string>)
    requires a in d.placements
  {
    && |path| == d.placements[a].placementGeneration - 1
    && (forall k | 0 <= k < |path| :: LandedAt(d, path[k], a, k + 2))
    && (forall id | id in d.transfers && Landed(d.transfers[id].phase) && d.transfers[id].aggregateId == a ::
          0 <= d.transfers[id].resultingPlacementGeneration - 2 < |path|
            && path[d.transfers[id].resultingPlacementGeneration - 2] == id)
    && (forall k | 0 <= k < |path| - 1 ::
      d.transfers[path[k]].destinationCellId == d.transfers[path[k + 1]].sourceCellId)
    && (path != [] ==> d.transfers[path[|path| - 1]].destinationCellId == d.placements[a].cellId)
  }

  lemma {:induction false} ChainPrefix(d: Document, a: string, n: nat) returns (path: seq<string>)
    requires Chain(d) && a in d.placements && n < d.placements[a].placementGeneration
    ensures |path| == n && forall k | 0 <= k < n :: LandedAt(d, path[k], a, k + 2)
    decreases n
  {
    hide LandedAt;
    path := [];
    if n > 0 {
      var shorter := ChainPrefix(d, a, n - 1);
      assert HasLanded(d, a, n + 1);
      var id :| LandedAt(d, id, a, n + 1);
      path := shorter + [id];
    }
  }

  lemma GenerationChain(s: Setting, d: Document, a: string) returns (path: seq<string>)
    requires Inv(s, d) && a in d.placements
    ensures IsChainOf(d, a, path)
  {
    hide ConsistentTransfer, ValidAssignment, TransfersHold;
    CellKnown(d, a);
    path := ChainPrefix(d, a, d.placements[a].placementGeneration - 1);
    forall id | id in d.transfers && Landed(d.transfers[id].phase) && d.transfers[id].aggregateId == a
      ensures 0 <= d.transfers[id].resultingPlacementGeneration - 2 < |path|
          && path[d.transfers[id].resultingPlacementGeneration - 2] == id
    {
      var g := d.transfers[id].resultingPlacementGeneration;
      assert LandedAt(d, id, a, g);
      assert LandedAt(d, path[g - 2], a, g - 2 + 2);
    }
    forall k | 0 <= k < |path| - 1
      ensures d.transfers[path[k]].destinationCellId == d.transfers[path[k + 1]].sourceCellId
    {
      assert LandedAt(d, path[k], a, k + 2) && LandedAt(d, path[k + 1], a, k + 1 + 2);
    }
  }
}
