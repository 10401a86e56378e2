/** Which calls can still move a transfer, which documents reopen, and which transfers are
    stranded. */
module DirectoryProgress {
  import opened Prelude
  import opened Address
  import opened CellDirectory
  import opened DirectoryInvariant
  import opened DirectorySteps
  import opened DirectoryRuns
  import opened DirectoryHistory

  // ---- the call that makes a document unopenable -----------------------------------------

  lemma BecomesAborting(s: Setting, d: Document, action: Action)
    requires ValidSetting(s) && Inv(s, d) && Proposal(s.hash, d, action).Some?
    requires Subject(action).Some? && Subject(action).value in d.transfers
    requires var n := Proposal(s.hash, d, action).value;
             Subject(action).value in n.transfers && n.transfers[Subject(action).value].phase.Aborting?
    requires !d.transfers[Subject(action).value].phase.Aborting?
    ensures action.RequestAbort?
  {
    hide Inv, ValidSetting, AssignmentOf, ResolveGeneration, ValidHash, ValidStableId, HistoricalAuthority,
      PrepareProofBinds, QuarantineProofBinds, ImportProofBinds, FinalizationProofBinds, AbortProofBinds;
  }

  lemma RequestAbortAccepted(s: Setting, d: Document, id: string)
    requires ValidSetting(s) && Inv(s, d) && id in d.transfers
    requires d.transfers[id].phase.Prepared? || d.transfers[id].phase.Quarantined?
    ensures RequestAbortPlan(d, id)
        == Install(WithTransfer(d, d.transfers[id].(phase := Aborting), id), d.transfers[id].(phase := Aborting))
  {
    hide Inv, ValidSetting, ConsistentTransfer, AssignmentOf, ValidStableId, ValidHash;
    TransferStart(s, d, id);
    TransferFacts(d, id, d.transfers[id]);
  }

  /** An abort requested, and written, before the transfer's source prepare proof arrived. */
  predicate ProoflessAbort(d: Document, event: Event) {
    && event.action.RequestAbort? && event.durable && d.directoryRevision < U64_MAX
    && event.action.id in d.transfers
    && d.transfers[event.action.id].phase.Prepared?
    && d.transfers[event.action.id].sourcePrepareProof.None?
  }

  lemma AbortsProvedAfter(s: Setting, d: Document, event: Event)
    requires ValidSetting(s) && Inv(s, d) && AbortsProved(d)
    ensures AbortsProved(Step(s.hash, d, event)) <==> !ProoflessAbort(d, event)
  {
    hide Inv, ValidSetting, Proposal;
    var e := Step(s.hash, d, event);
    if ProoflessAbort(d, event) {
      RequestAbortAccepted(s, d, event.action.id);
      assert Proposal(s.hash, d, event.action) == Proposed(RequestAbortPlan(d, event.action.id)) by {
        hide RequestAbortPlan;
        AbortProposal(s.hash, d, event.action.id);
      }
      assert e.transfers[event.action.id].phase.Aborting?;
    } else if e != d {
      var n := Proposal(s.hash, d, event.action).value;
      forall x | x in e.transfers && e.transfers[x].phase.Aborting? ensures e.transfers[x].sourcePrepareProof.Some? {
        UnprovedAbort(s, d, event, x);
      }
    }
  }

  lemma AbortProposal(hash: CellHash, d: Document, id: string)
    ensures Proposal(hash, d, RequestAbort(id)) == Proposed(RequestAbortPlan(d, id))
  {
    hide RequestAbortPlan;
  }

  lemma UnprovedAbort(s: Setting, d: Document, event: Event, x: string)
    requires ValidSetting(s) && Inv(s, d) && AbortsProved(d) && !ProoflessAbort(d, event)
    requires Step(s.hash, d, event) != d
    requires x in Step(s.hash, d, event).transfers && Step(s.hash, d, event).transfers[x].phase.Aborting?
    ensures Step(s.hash, d, event).transfers[x].sourcePrepareProof.Some?
  {
    hide Inv, ValidSetting, Proposal;
    var action, n := event.action, Proposal(s.hash, d, event.action).value;
    if Subject(action).None? {
      assert n.transfers == d.transfers by { CellProposalTransfers(s.hash, d, action); }
    } else if Subject(action).value in d.transfers {
      TransferProposal(s, d, action);
      if x == Subject(action).value && !d.transfers[x].phase.Aborting? {
        BecomesAborting(s, d, action);
        if d.transfers[x].phase.Quarantined? { SourceProofOfAbortable(s, d, x); }
      }
    } else {
      NewTransferProposal(s, d, action);
      assert n.transfers == d.transfers[action.id := n.transfers[action.id]]
          && n.transfers[action.id].phase.Prepared? by {
        hide AssignmentOf, ValidHash, ValidStableId;
      }
    }
  }

  lemma CellProposalTransfers(hash: CellHash, d: Document, action: Action)
    requires Subject(action).None? && Proposal(hash, d, action).Some?
    ensures Proposal(hash, d, action).value.transfers == d.transfers
  {
    hide AssignmentOf, ValidStableId;
  }

  lemma SourceProofOfAbortable(s: Setting, d: Document, id: string)
    requires ValidSetting(s) && Inv(s, d) && id in d.transfers && d.transfers[id].phase.Quarantined?
    ensures d.transfers[id].sourcePrepareProof.Some?
  {
    hide Inv, ConsistentTransfer, AssignmentOf;
    TransferStart(s, d, id);
    ShapeFacts(d, id);
  }

  /** One call can leave an openable directory unopenable: an abort requested before the source
      prepare proof. Every other call, with any arguments, keeps it openable. */
  lemma OnlyProoflessAbortBreaks(s: Setting, d: Document, event: Event)
    requires ValidSetting(s) && Inv(s, d) && ValidDocument(d, s.manifest, s.expected)
    ensures ValidDocument(Step(s.hash, d, event), s.manifest, s.expected) <==> !ProoflessAbort(d, event)
  {
    hide Inv, ValidSetting, ValidDocument, Step, AbortsProved, ProoflessAbort;
    HoldsReopens(s, d);
    AbortsProvedAfter(s, d, event);
    StepKeeps(s, d, event);
    HoldsReopens(s, Step(s.hash, d, event));
  }

  // ---- how many calls can change a transfer ----------------------------------------------

  /** The calls of a run that changed one transfer. */
  function Changes(hash: CellHash, d: Document, events: seq<Event>, id: string): nat
    decreases |events|
  {
    if events == [] then 0
    else
      var e := Step(hash, d, events[0]);
      (if id in d.transfers && id in e.transfers && e.transfers[id] != d.transfers[id] then 1 else 0)
        + Changes(hash, e, events[1..], id)
  }

  lemma StepRank(s: Setting, d: Document, event: Event, id: string)
    requires ValidSetting(s) && Inv(s, d) && id in d.transfers
    ensures var e := Step(s.hash, d, event);
            id in e.transfers && (e.transfers[id] == d.transfers[id] || Rank(e.transfers[id]) < Rank(d.transfers[id]))
  {
    hide Inv, ValidSetting, Proposal, TransferEvolves;
    if Proposal(s.hash, d, event.action).Some? {
      if Subject(event.action).None? {
        CellProposalTransfers(s.hash, d, event.action);
      } else if Subject(event.action).value in d.transfers {
        TransferProposal(s, d, event.action);
      } else {
        NewTransferProposal(s, d, event.action);
        hide AssignmentOf, ValidHash, ValidStableId;
      }
    }
  }

  /** After a prepare at most six calls change the transfer, in any run; a call that changes it
      brings it strictly closer to a terminal phase. */
  lemma {:induction false} ChangesBounded(s: Setting, d: Document, events: seq<Event>, id: string)
    requires ValidSetting(s) && Inv(s, d) && id in d.transfers
    ensures id in Run(s.hash, d, events).transfers
    ensures Changes(s.hash, d, events, id) + Rank(Run(s.hash, d, events).transfers[id]) <= Rank(d.transfers[id]) <= 6
    decreases |events|
  {
    hide Inv, ValidSetting, Step;
    if events != [] {
      StepRank(s, d, events[0], id);
      StepKeeps(s, d, events[0]);
      ChangesBounded(s, Step(s.hash, d, events[0]), events[1..], id);
    }
  }

  // ---- pinning ---------------------------------------------------------------------------

  /** Both cells of a live transfer stay assigned, so neither can be released, and the assignment
      guard of the commit never refuses: a quarantined transfer always commits. */
  lemma LiveTransferPins(s: Setting, d: Document, id: string)
    requires ValidSetting(s) && Inv(s, d) && id in d.transfers && !Terminal(d.transfers[id].phase)
    ensures var t := d.transfers[id];
            && TransferNamesRecords(d, t)
            && AssignmentsCurrent(t, d.assignments[t.sourceCellId], d.assignments[t.destinationCellId])
            && (forall expected, holderId :: !ReleasePlan(s.hash, d, t.sourceCellKey, expected, holderId).Install?
                                             && !ReleasePlan(s.hash, d, t.destinationCellKey, expected,
                                               holderId).Install?)
            && (t.phase.Quarantined? ==> CommitPlan(s.hash, d, id, t.priorPlacementGeneration).Install?)
  {
    hide Inv, ValidSetting, ValidHash, ValidStableId, ValidAssignment, ProofsBound, TransferBound, AssignmentOf,
        ValidCellKey;
    TransferStart(s, d, id);
    TransferFacts(d, id, d.transfers[id]);
    ShapeFacts(d, id);
    var t := d.transfers[id];
    PinsBoth(s, d, id);
  }

  lemma PinsBoth(s: Setting, d: Document, id: string)
    requires ValidSetting(s) && Inv(s, d) && id in d.transfers && !Terminal(d.transfers[id].phase)
    ensures Pinned(d, s.hash(d.transfers[id].sourceCellKey)) && Pinned(d, s.hash(d.transfers[id].destinationCellKey))
  {
    hide Inv, ConsistentTransfer, ValidHash, ValidStableId, ValidAssignment;
    TransferStart(s, d, id);
    InvParts(s, d);
    var t := d.transfers[id];
    TransferFacts(d, id, t);
    AssignmentKnown(s, d, t.sourceCellId);
    AssignmentKnown(s, d, t.destinationCellId);
    assert PinnedBy(t, t.sourceCellId) && PinnedBy(t, t.destinationCellId);
  }

  // ---- progress --------------------------------------------------------------------------

  /** The fence of one generation resolves to that generation and to no other. */
  lemma FenceResolves(a: CellAssignmentRecord, g: u64, claimed: u64)
    requires ValidHistory(a) && a.state.Assigned? && g in a.fencingHistory && claimed in {0, g}
    ensures ResolveGeneration(claimed, a.fencingHistory[g], a) == Some(g)
  {
    var generations := GenerationsOf(a, a.fencingHistory[g]);
    forall h | h in generations ensures h == g {
      if h < g { HistoryIncreases(a, h, g); } else if g < h { HistoryIncreases(a, g, h); }
    }
    assert generations == {g};
    forall h | generations == {h} ensures h == g { assert h in generations; }
  }

  lemma CurrentFence(id: CellId, key: CellKey, a: CellAssignmentRecord)
    requires ValidAssignment(id, key, a) && a.state.Assigned?
    ensures ResolveGeneration(0, a.authorityFencingToken, a) == Some(a.assignmentGeneration)
    ensures HistoricalAuthority(a.assignmentGeneration, a.authorityFencingToken, a) && a.authorityFencingToken != 0
  {
    assert a.assignmentGeneration in a.fencingHistory;
    FenceResolves(a, a.assignmentGeneration, 0);
  }

  function ZeroHash(): (hash: string)
    ensures ValidHash(hash)
  {
    seq(64, _ => '0')
  }

  /** A call that moves a live transfer on, submitting proofs under the fences now in force. */
  function NextCall(d: Document, id: string): Action
    requires id in d.transfers && TransferNamesRecords(d, d.transfers[id]) && !Terminal(d.transfers[id].phase)
  {
    var t := d.transfers[id];
    var from, to := d.assignments[t.sourceCellId].authorityFencingToken,
        d.assignments[t.destinationCellId].authorityFencingToken;
    match t.phase
    case Prepared =>
      if t.sourcePrepareProof.None? then
        RecordSourcePrepared(id, PrepareProof(id, t.packageHash, t.sourceCellId, 0, t.priorPlacementGeneration, from,
          1, ZeroHash(), ZeroHash()))
      else
        RecordQuarantine(id, t.packageHash, ZeroHash(),
                         QuarantineProof(id, t.packageHash, ZeroHash(), t.destinationCellId, 0,
                           t.resultingPlacementGeneration, to, 1, ZeroHash(), ZeroHash()))
    case Quarantined => CommitTransfer(id, t.priorPlacementGeneration)
    case Committed =>
      RecordImported(id, ImportProof(id, t.packageHash, if t.quarantineReceiptHash.Some?
        then t.quarantineReceiptHash.value else "", t.destinationCellId, 0,
                                     t.resultingPlacementGeneration, to, 1, ZeroHash(), ZeroHash()))
    case Imported =>
      FinalizeTransfer(id, FinalizationProof(id, t.packageHash, t.sourceCellId, 0, t.resultingPlacementGeneration,
        from, 1, ZeroHash(), ZeroHash()))
    case Aborting =>
      if t.sourceAbortProof.None? then
        RecordAbortCleanup(id, AbortProof(id, t.packageHash, t.sourceCellId, 0, Source, from, 1, ZeroHash(),
          ZeroHash()))
      else if t.destinationAbortProof.None? then
        RecordAbortCleanup(id, AbortProof(id, t.packageHash, t.destinationCellId, 0, Destination, to, 1, ZeroHash(),
          ZeroHash()))
      else FinalizeAbort(id)
  }

  /** An imported transfer can finalize now only if its aggregate rests where it landed. */
  predicate Overtaken(d: Document, id: string)
    requires id in d.transfers && d.transfers[id].aggregateId in d.placements
  {
    var t, p := d.transfers[id], d.placements[d.transfers[id].aggregateId];
    t.phase.Imported? && (!p.state.Resident? || p.placementGeneration != t.resultingPlacementGeneration)
  }

  /** Every live transfer has an acceptable next call, except an imported one that was overtaken
      by a new prepare of its aggregate. */
  lemma LiveTransferProgresses(s: Setting, d: Document, id: string)
    requires ValidSetting(s) && Inv(s, d) && id in d.transfers && !Terminal(d.transfers[id].phase)
    requires TransferNamesRecords(d, d.transfers[id]) && !Overtaken(d, id)
    ensures Proposal(s.hash, d, NextCall(d, id)).Some?
    ensures Moves(d, Proposal(s.hash, d, NextCall(d, id)).value, id)
  {
    LiveCells(s, d, id);
    if d.transfers[id].phase.Prepared? || d.transfers[id].phase.Quarantined? || d.transfers[id].phase.Aborting? {
      EarlyProgress(s, d, id);
    } else {
      LateProgress(s, d, id);
    }
    assert Moves(d, Proposal(s.hash, d, NextCall(d, id)).value, id) by {
      hide *;
      NextCallSubject(d, id);
      TransferProposal(s, d, NextCall(d, id));
    }
  }

  lemma NextCallSubject(d: Document, id: string)
    requires id in d.transfers && TransferNamesRecords(d, d.transfers[id]) && !Terminal(d.transfers[id].phase)
    ensures Subject(NextCall(d, id)) == Some(id)
  {}

  /** The facts about both cells of a live transfer that its next call needs. */
  lemma LiveCells(s: Setting, d: Document, id: string)
    requires ValidSetting(s) && Inv(s, d) && id in d.transfers && !Terminal(d.transfers[id].phase)
    ensures var t := d.transfers[id];
            && ConsistentTransfer(d, id, t) && TransferNamesRecords(d, t)
            && (forall cell | cell in {t.sourceCellId, t.destinationCellId} ::
                  && cell in d.assignments
                  && ResolveGeneration(0, d.assignments[cell].authorityFencingToken, d.assignments[cell])
                    == Some(d.assignments[cell].assignmentGeneration)
                  && HistoricalAuthority(d.assignments[cell].assignmentGeneration,
                    d.assignments[cell].authorityFencingToken, d.assignments[cell])
                  && d.assignments[cell].authorityFencingToken != 0)
            && AssignmentOf(s.hash, d, t.sourceCellKey) == Ok(d.assignments[t.sourceCellId])
            && AssignmentOf(s.hash, d, t.destinationCellKey) == Ok(d.assignments[t.destinationCellId])
  {
    hide Inv, ConsistentTransfer, AssignmentOf, ValidAssignment, ResolveGeneration, HistoricalAuthority, ValidPlacement;
    TransferStart(s, d, id);
    var t := d.transfers[id];
    TransferFacts(d, id, t);
    CurrentFence(t.sourceCellId, t.sourceCellKey, d.assignments[t.sourceCellId]);
    CurrentFence(t.destinationCellId, t.destinationCellKey, d.assignments[t.destinationCellId]);
  }

  lemma EarlyProgress(s: Setting, d: Document, id: string)
    requires ValidSetting(s) && Inv(s, d) && id in d.transfers
    requires d.transfers[id].phase.Prepared? || d.transfers[id].phase.Quarantined? || d.transfers[id].phase.Aborting?
    requires TransferNamesRecords(d, d.transfers[id])
    ensures Proposal(s.hash, d, NextCall(d, id)).Some?
  {
    hide Inv, ValidSetting, AssignmentOf, ResolveGeneration, HistoricalAuthority, ValidHash, ValidStableId, ProofsBound;
    LiveCells(s, d, id);
  }

  lemma LateProgress(s: Setting, d: Document, id: string)
    requires ValidSetting(s) && Inv(s, d) && id in d.transfers
    requires d.transfers[id].phase.Committed? || d.transfers[id].phase.Imported?
    requires TransferNamesRecords(d, d.transfers[id]) && !Overtaken(d, id)
    ensures Proposal(s.hash, d, NextCall(d, id)).Some?
  {
    hide Inv, ValidSetting, AssignmentOf, ResolveGeneration, HistoricalAuthority, ValidHash, ValidStableId, ProofsBound;
    LiveCells(s, d, id);
    var t := d.transfers[id];
    if t.phase.Imported? {
      assert d.placements[t.aggregateId].cellId == t.destinationCellId;
    }
  }

  /** Nothing can change an overtaken transfer: no call, whatever its arguments. */
  lemma OvertakenIsStuck(s: Setting, d: Document, id: string, event: Event)
    requires ValidSetting(s) && Inv(s, d) && id in d.transfers && d.transfers[id].aggregateId in d.placements
        && Overtaken(d, id)
    ensures id in Step(s.hash, d, event).transfers && Step(s.hash, d, event).transfers[id] == d.transfers[id]
  {
    hide Inv, ValidSetting, Proposal, TransferEvolves;
    if Proposal(s.hash, d, event.action).Some? {
      if Subject(event.action).None? {
        CellProposalTransfers(s.hash, d, event.action);
      } else if Subject(event.action).value !in d.transfers {
        NewTransferProposal(s, d, event.action);
        hide AssignmentOf, ValidHash, ValidStableId;
      } else if Subject(event.action).value == id {
        OvertakenRefuses(s, d, id, event.action);
      } else {
        TransferProposal(s, d, event.action);
      }
    }
  }

  lemma OvertakenRefuses(s: Setting, d: Document, id: string, action: Action)
    requires id in d.transfers && d.transfers[id].aggregateId in d.placements && Overtaken(d, id)
    requires Subject(action) == Some(id)
    ensures Proposal(s.hash, d, action).None?
  {
    hide AssignmentOf, ResolveGeneration, ValidHash, ValidStableId, HistoricalAuthority,
      PrepareProofBinds, QuarantineProofBinds, ImportProofBinds, FinalizationProofBinds, AbortProofBinds;
  }

  /** An imported transfer whose aggregate has moved on is stranded: in every later run it stays
      imported, so it pins both of its cells forever. */
  lemma {:induction false} StrandedForever(s: Setting, d: Document, events: seq<Event>, id: string)
    requires ValidSetting(s) && Inv(s, d) && id in d.transfers && d.transfers[id].aggregateId in d.placements
    requires d.transfers[id].phase.Imported?
    requires d.placements[d.transfers[id].aggregateId].placementGeneration
        > d.transfers[id].resultingPlacementGeneration
    ensures var e := Run(s.hash, d, events);
            && id in e.transfers && e.transfers[id] == d.transfers[id]
            && TransferNamesRecords(e, e.transfers[id])
            && e.assignments[e.transfers[id].sourceCellId].state.Assigned?
            && e.assignments[e.transfers[id].destinationCellId].state.Assigned?
    decreases |events|
  {
    hide Inv, ValidSetting, Step, AssignmentOf;
    if events == [] {
      LiveTransferPins(s, d, id);
    } else {
      OvertakenIsStuck(s, d, id, events[0]);
      StepKeeps(s, d, events[0]);
      StepEvolves(s, d, events[0]);
      StrandedForever(s, Step(s.hash, d, events[0]), events[1..], id);
    }
  }
}
