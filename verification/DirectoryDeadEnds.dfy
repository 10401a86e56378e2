/** Dead ends the directory does reach, from a fresh document: one that does not open again, and
    a transfer that can never finalize. For the second, exactly which transfers still can. */
module DirectoryDeadEnds {
  import opened Prelude
  import opened Address
  import opened CellDirectory
  import opened DirectoryInvariant
  import opened DirectorySteps
  import opened DirectoryRuns
  import opened DirectoryHistory
  import opened DirectoryProgress

  // ---- composing runs --------------------------------------------------------------------

  lemma {:induction false} RunAppend(hash: CellHash, d: Document, first: seq<Event>, rest: seq<Event>)
    ensures Run(hash, d, first + rest) == Run(hash, Run(hash, d, first), rest)
    decreases |first|
  {
    hide Step;
    if first == [] {
      assert first + rest == rest;
    } else {
      assert (first + rest)[1..] == first[1..] + rest;
      RunAppend(hash, Step(hash, d, first[0]), first[1..], rest);
    }
  }

  lemma RunOne(hash: CellHash, d: Document, event: Event)
    ensures Run(hash, d, [event]) == Step(hash, d, event)
  {
    hide Step;
    assert Run(hash, Step(hash, d, event), [event][1..]) == Step(hash, d, event);
  }

  lemma RunThen(hash: CellHash, d: Document, first: seq<Event>, event: Event)
    ensures Run(hash, d, first + [event]) == Step(hash, Run(hash, d, first), event)
  {
    hide *;
    RunAppend(hash, d, first, [event]);
    RunOne(hash, Run(hash, d, first), event);
  }

  // ---- the first prepare of a fresh directory --------------------------------------------

  function Claimed(d: Document, cell: CellId): Document
    requires cell in d.assignments && d.assignments[cell].assignmentGeneration == 0 && d.directoryRevision < U64_MAX
  {
    d.(directoryRevision := d.directoryRevision + 1,
      assignments := d.assignments[cell := Advanced(d.assignments[cell], "host", 1)])
  }

  lemma ClaimFresh(s: Setting, d: Document, cell: CellId)
    requires ValidSetting(s) && Inv(s, d) && cell in d.assignments && d.directoryRevision < U64_MAX
    requires d.assignments[cell].state.Sleeping? && d.assignments[cell].assignmentGeneration == 0
        && d.assignments[cell].authorityFencingToken == 0
    ensures Step(s.hash, d, Event(Claim(d.assignments[cell].cellKey, 0, "host", 1), true)) == Claimed(d, cell)
    ensures Inv(s, Claimed(d, cell))
    ensures Claimed(d, cell).assignments[cell].state.Assigned?
        && Claimed(d, cell).assignments[cell].cellKey == d.assignments[cell].cellKey
  {
    ClaimAccepted(s, d, cell);
    ClaimStep(s.hash, d, d.assignments[cell].cellKey);
    hide Inv, AssignmentOf, ValidSetting, ClaimPlan, Advanced, Step;
    StepKeeps(s, d, Event(Claim(d.assignments[cell].cellKey, 0, "host", 1), true));
  }

  lemma ClaimStep(hash: CellHash, d: Document, key: CellKey)
    requires d.directoryRevision < U64_MAX && ClaimPlan(hash, d, key, 0, "host", 1).Install?
    ensures Step(hash, d, Event(Claim(key, 0, "host", 1), true))
            == ClaimPlan(hash, d, key, 0, "host", 1).next.(directoryRevision := d.directoryRevision + 1)
  {
    hide ClaimPlan;
  }

  lemma ClaimAccepted(s: Setting, d: Document, cell: CellId)
    requires ValidSetting(s) && Inv(s, d) && cell in d.assignments
    requires d.assignments[cell].state.Sleeping? && d.assignments[cell].assignmentGeneration == 0
        && d.assignments[cell].authorityFencingToken == 0
    ensures var a := d.assignments[cell];
            && ClaimPlan(s.hash, d, a.cellKey, 0, "host", 1)
              == Install(WithAssignment(d, Advanced(a, "host", 1), cell), Advanced(a, "host", 1))
            && Advanced(a, "host", 1).state.Assigned? && Advanced(a, "host", 1).cellKey == a.cellKey
  {
    hide Inv, AssignmentOf, ValidSetting, PlacementsHold, TransfersHold, LinksHold, Chain;
    InvParts(s, d);
    AssignmentKnown(s, d, cell);
    assert ValidAssignment(cell, s.expected[cell].cellKey, d.assignments[cell]);
    assert ValidStableId("host");
  }

  lemma RegisterFirst(s: Setting, d: Document, x: CellId)
    requires ValidSetting(s) && Inv(s, d) && x in d.assignments && d.placements == map[]
        && d.directoryRevision < U64_MAX
    ensures var e := Step(s.hash, d, Event(Register("grid", Grid, d.assignments[x].cellKey), true));
            && e == d.(directoryRevision := d.directoryRevision + 1,
                       placements := map["grid" := AggregatePlacementRecord("grid", Grid, d.assignments[x].cellKey, x,
                         1, Resident, None)])
            && Inv(s, e)
  {
    hide Inv, AssignmentOf, ValidSetting, AssignmentsHold, PlacementsHold, TransfersHold, LinksHold, Chain;
    InvParts(s, d);
    StepKeeps(s, d, Event(Register("grid", Grid, d.assignments[x].cellKey), true));
    AssignmentKnown(s, d, x);
    assert ValidStableId("grid");
  }

  lemma PrepareFirst(s: Setting, d: Document, x: CellId, y: CellId)
    requires ValidSetting(s) && Inv(s, d) && x in d.assignments && y in d.assignments && x != y
        && d.directoryRevision < U64_MAX
    requires d.assignments[x].state.Assigned? && d.assignments[y].state.Assigned?
    requires d.placements
        == map["grid" := AggregatePlacementRecord("grid", Grid, d.assignments[x].cellKey, x, 1, Resident, None)]
    requires d.transfers == map[]
    ensures var e := Step(s.hash, d, Event(Prepare("grid", 1, "move", d.assignments[y].cellKey, ZeroHash()), true));
            && Inv(s, e) && AbortsProved(e) && e.directoryRevision == d.directoryRevision + 1
            && "move" in e.transfers && e.transfers["move"].phase.Prepared?
              && e.transfers["move"].sourcePrepareProof.None?
            && e.transfers.Keys == {"move"} && e.transfers["move"].aggregateId == "grid"
              && e.transfers["move"].resultingPlacementGeneration == 2
  {
    hide Inv, AssignmentOf, ValidSetting, ValidHash, AssignmentsHold, PlacementsHold, TransfersHold, LinksHold, Chain;
    InvParts(s, d);
    StepKeeps(s, d, Event(Prepare("grid", 1, "move", d.assignments[y].cellKey, ZeroHash()), true));
    AssignmentKnown(s, d, x);
    AssignmentKnown(s, d, y);
    assert ValidStableId("grid") && ValidStableId("move");
  }

  /** Both cells claimed, a grid registered at the first, and its move to the second prepared. */
  function FirstCalls(from: CellKey, to: CellKey): seq<Event> {
    [Event(Claim(from, 0, "host", 1), true), Event(Claim(to, 0, "host", 1), true),
     Event(Register("grid", Grid, from), true), Event(Prepare("grid", 1, "move", to, ZeroHash()), true)]
  }

  lemma FirstPrepare(s: Setting, x: CellId, y: CellId) returns (d: Document)
    requires ValidSetting(s) && FreshCells(s) && x in s.expected && y in s.expected && x != y
    ensures d == Run(s.hash, InitialDocument(s.manifest, s.expected),
        FirstCalls(s.expected[x].cellKey, s.expected[y].cellKey))
    ensures Inv(s, d) && AbortsProved(d) && d.directoryRevision == 5
    ensures "move" in d.transfers && d.transfers["move"].phase.Prepared? && d.transfers["move"].sourcePrepareProof.None?
    ensures d.transfers.Keys == {"move"} && d.transfers["move"].aggregateId == "grid"
        && d.transfers["move"].resultingPlacementGeneration == 2
  {
    hide Inv, ValidSetting, Step, ValidHash, ValidStableId, AssignmentOf, AbortsProved;
    var calls := FirstCalls(s.expected[x].cellKey, s.expected[y].cellKey);
    var d0 := InitialDocument(s.manifest, s.expected);
    InitialHolds(s);
    var d1 := Step(s.hash, d0, calls[0]);
    ClaimFresh(s, d0, x);
    var d2 := Step(s.hash, d1, calls[1]);
    ClaimFresh(s, d1, y);
    var d3 := Step(s.hash, d2, calls[2]);
    RegisterFirst(s, d2, x);
    d := Step(s.hash, d3, calls[3]);
    PrepareFirst(s, d3, x, y);
    RunFour(s.hash, d0, calls);
  }

  lemma RunFour(hash: CellHash, d: Document, calls: seq<Event>)
    requires |calls| == 4
    ensures Run(hash, d, calls)
        == Step(hash, Step(hash, Step(hash, Step(hash, d, calls[0]), calls[1]), calls[2]), calls[3])
  {
    hide *;
    assert calls == [calls[0]] + [calls[1]] + [calls[2]] + [calls[3]];
    RunThen(hash, d, [calls[0]] + [calls[1]] + [calls[2]], calls[3]);
    RunThen(hash, d, [calls[0]] + [calls[1]], calls[2]);
    RunThen(hash, d, [calls[0]], calls[1]);
    RunOne(hash, d, calls[0]);
  }

  /** Five ordinary calls on any fresh directory leave a document the validator rejects. */
  lemma UnopenableRun(s: Setting, x: CellId, y: CellId)
    requires ValidSetting(s) && FreshCells(s) && x in s.expected && y in s.expected && x != y
    ensures var calls := FirstCalls(s.expected[x].cellKey, s.expected[y].cellKey) + [Event(RequestAbort("move"), true)];
            !ValidDocument(Run(s.hash, InitialDocument(s.manifest, s.expected), calls), s.manifest, s.expected)
  {
    hide Inv, ValidSetting, ValidDocument, Step, AbortsProved;
    var d := FirstPrepare(s, x, y);
    HoldsReopens(s, d);
    OnlyProoflessAbortBreaks(s, d, Event(RequestAbort("move"), true));
    RunThen(s.hash, InitialDocument(s.manifest, s.expected), FirstCalls(s.expected[x].cellKey, s.expected[y].cellKey),
            Event(RequestAbort("move"), true));
  }

  // ---- the next call of a live transfer, written -----------------------------------------

  /** The phase the next call leads to; an abort's cleanups are left open. */
  predicate Advances(t: CellTransferRecord, u: CellTransferRecord) {
    && (t.phase.Prepared? ==>
      u.phase == (if t.sourcePrepareProof.None? then Prepared else Quarantined) && u.sourcePrepareProof.Some?)
    && (t.phase.Quarantined? ==> u.phase.Committed?)
    && (t.phase.Committed? ==> u.phase.Imported?)
    && (t.phase.Imported? ==> u.phase.Finalized?)
  }

  /** One revision later one transfer has moved, its aggregate's placement with it. */
  predicate MovedTo(d: Document, e: Document, id: string) {
    e.directoryRevision == d.directoryRevision + 1 && Moves(d, e.(directoryRevision := d.directoryRevision), id)
  }

  lemma NextStep(s: Setting, d: Document, id: string)
    requires ValidSetting(s) && Inv(s, d) && id in d.transfers && TransferNamesRecords(d, d.transfers[id])
    requires !Terminal(d.transfers[id].phase) && !Overtaken(d, id) && d.directoryRevision < U64_MAX
    ensures var e := Step(s.hash, d, Event(NextCall(d, id), true));
            && Inv(s, e) && MovedTo(d, e, id) && Advances(d.transfers[id], e.transfers[id])
            && TransferNamesRecords(e, e.transfers[id])
  {
    hide Inv, ValidSetting, Proposal, NextCall, Overtaken, TransferEvolves, PlacementEvolves, ConsistentTransfer;
    StepKeeps(s, d, Event(NextCall(d, id), true));
    LiveTransferProgresses(s, d, id);
    NextPhase(s, d, id);
    TransferStart(s, Step(s.hash, d, Event(NextCall(d, id), true)), id);
  }

  lemma NextPhase(s: Setting, d: Document, id: string)
    requires id in d.transfers && TransferNamesRecords(d, d.transfers[id]) && !Terminal(d.transfers[id].phase)
    requires Proposal(s.hash, d, NextCall(d, id)).Some?
    ensures id in Proposal(s.hash, d, NextCall(d, id)).value.transfers
    ensures Advances(d.transfers[id], Proposal(s.hash, d, NextCall(d, id)).value.transfers[id])
  {
    hide AssignmentOf, ResolveGeneration, ValidHash, ValidStableId, HistoricalAuthority,
      PrepareProofBinds, QuarantineProofBinds, ImportProofBinds, FinalizationProofBinds, AbortProofBinds;
  }

  // ---- where an aggregate rests ----------------------------------------------------------

  /** No transfer but one differs, and no placement is lost or set back. */
  predicate OnlyOneMoved(d: Document, e: Document, id: string) {
    && e.transfers.Keys == d.transfers.Keys
    && (forall x | x in d.transfers && x != id :: e.transfers[x] == d.transfers[x])
    && (forall a | a in d.placements ::
          a in e.placements && d.placements[a].placementGeneration <= e.placements[a].placementGeneration)
  }

  lemma MovedIsOnlyOne(d: Document, e: Document, id: string)
    requires MovedTo(d, e, id)
    ensures OnlyOneMoved(d, e, id) && SameBinding(d.transfers[id], e.transfers[id])
  {}

  /** When a placement's active transfer is no longer active, the aggregate is resident again. */
  lemma Released(s: Setting, d: Document, e: Document, id: string)
    requires Inv(s, d) && Inv(s, e) && OnlyOneMoved(d, e, id) && id in d.transfers
    requires d.transfers[id].aggregateId in d.placements
    requires d.placements[d.transfers[id].aggregateId].activeTransferId == Some(id)
    requires e.transfers[id].aggregateId == d.transfers[id].aggregateId && !Active(e.transfers[id].phase)
    ensures e.placements[d.transfers[id].aggregateId].state.Resident?
  {
    hide Inv, Active, ValidAssignment, ConsistentTransfer, ValidStableId;
    var a := d.transfers[id].aggregateId;
    if e.placements[a].activeTransferId.Some? {
      var x := e.placements[a].activeTransferId.value;
      ActiveTransferExactly(s, e, a, x);
      ActiveTransferExactly(s, d, a, x);
    }
    InvParts(s, e);
    assert ValidPlacement(e.assignments, a, e.placements[a]);
  }

  /** A generation is taken only by landing: nothing newly landed, nothing newly placed. */
  lemma SameGeneration(s: Setting, d: Document, e: Document, id: string, a: string)
    requires Inv(s, d) && Inv(s, e) && OnlyOneMoved(d, e, id) && id in d.transfers && a in d.placements
    requires SameBinding(d.transfers[id], e.transfers[id])
    requires Landed(e.transfers[id].phase) ==> Landed(d.transfers[id].phase)
    ensures e.placements[a].placementGeneration == d.placements[a].placementGeneration
  {
    hide Inv, AssignmentsHold, TransfersHold, LinksHold;
    InvParts(s, d);
    InvParts(s, e);
    CellKnown(d, a);
    var g := e.placements[a].placementGeneration;
    if g >= 2 {
      assert HasLanded(e, a, g);
      var x :| LandedAt(e, x, a, g);
      assert LandedAt(d, x, a, g);
    }
  }

  /** A committed transfer's aggregate has the generation it landed at. */
  lemma CommittedPlacement(s: Setting, d: Document, id: string)
    requires ValidSetting(s) && Inv(s, d) && id in d.transfers && d.transfers[id].phase.Committed?
    ensures d.transfers[id].aggregateId in d.placements
    ensures d.placements[d.transfers[id].aggregateId].placementGeneration
        == d.transfers[id].resultingPlacementGeneration
  {
    hide Inv, ConsistentTransfer, AssignmentOf, ValidAssignment;
    TransferStart(s, d, id);
    TransferFacts(d, id, d.transfers[id]);
  }

  /** Right after its import a transfer can finalize. */
  lemma ImportRests(s: Setting, d: Document, e: Document, id: string)
    requires ValidSetting(s) && Inv(s, d) && Inv(s, e) && id in d.transfers && id in e.transfers && MovedTo(d, e, id)
    requires d.transfers[id].phase.Committed? && e.transfers[id].phase.Imported?
    ensures e.transfers[id].aggregateId in e.placements && !Overtaken(e, id)
  {
    hide Inv, ValidSetting, MovedTo;
    MovedIsOnlyOne(d, e, id);
    CommittedPlacement(s, d, id);
    ActiveTransferExactly(s, d, d.transfers[id].aggregateId, id);
    Released(s, d, e, id);
    SameGeneration(s, d, e, id, d.transfers[id].aggregateId);
  }

  // ---- an imported transfer that was overtaken at its own generation ---------------------

  lemma AbortRequested(s: Setting, d: Document, id: string)
    requires ValidSetting(s) && Inv(s, d) && id in d.transfers && d.directoryRevision < U64_MAX
    requires d.transfers[id].phase.Prepared? || d.transfers[id].phase.Quarantined?
    ensures var e := Step(s.hash, d, Event(RequestAbort(id), true));
            && Inv(s, e) && e.directoryRevision == d.directoryRevision + 1 && OnlyOneMoved(d, e, id)
            && SameBinding(d.transfers[id], e.transfers[id]) && e.transfers[id].phase.Aborting?
  {
    hide Inv, ValidSetting, Proposal, RequestAbortPlan;
    RequestAbortAccepted(s, d, id);
    AbortProposal(s.hash, d, id);
    StepKeeps(s, d, Event(RequestAbort(id), true));
  }

  /** An abort in progress completes in as many calls as it has left, and moves nothing else. */
  lemma {:induction false} AbortCompletes(s: Setting, d: Document, id: string) returns (calls: seq<Event>)
    requires ValidSetting(s) && Inv(s, d) && id in d.transfers && d.transfers[id].phase.Aborting?
    requires d.directoryRevision + Rank(d.transfers[id]) <= U64_MAX
    ensures |calls| <= Rank(d.transfers[id])
    ensures var e := Run(s.hash, d, calls);
            && Inv(s, e) && OnlyOneMoved(d, e, id) && e.directoryRevision == d.directoryRevision + |calls|
            && SameBinding(d.transfers[id], e.transfers[id]) && e.transfers[id].phase.Aborted?
    decreases Rank(d.transfers[id])
  {
    hide Inv, ValidSetting, Step, NextCall, ConsistentTransfer, AssignmentOf;
    TransferStart(s, d, id);
    NextStep(s, d, id);
    var call := Event(NextCall(d, id), true);
    var e := Step(s.hash, d, call);
    MovedIsOnlyOne(d, e, id);
    if e.transfers[id].phase.Aborted? {
      calls := [call];
      RunOne(s.hash, d, call);
    } else {
      var rest := AbortCompletes(s, e, id);
      calls := [call] + rest;
      RunAppend(s.hash, d, [call], rest);
      RunOne(s.hash, d, call);
    }
  }

  lemma LandsOnce(d: Document, x: string, y: string, a: string, g: int)
    requires Chain(d) && LandedAt(d, x, a, g) && LandedAt(d, y, a, g)
    ensures x == y
  {}

  /** The transfer in the way of a finalization at the same generation has not committed. */
  lemma Blocker(s: Setting, d: Document, id: string) returns (x: string)
    requires ValidSetting(s) && Inv(s, d) && id in d.transfers && d.transfers[id].phase.Imported?
    requires d.transfers[id].aggregateId in d.placements && Overtaken(d, id)
    requires d.placements[d.transfers[id].aggregateId].placementGeneration
        == d.transfers[id].resultingPlacementGeneration
    ensures x != id && x in d.transfers && d.transfers[x].aggregateId == d.transfers[id].aggregateId
    ensures d.placements[d.transfers[id].aggregateId].activeTransferId == Some(x)
    ensures d.transfers[x].phase.Prepared? || d.transfers[x].phase.Quarantined? || d.transfers[x].phase.Aborting?
  {
    hide Inv, ValidSetting, ConsistentTransfer, ValidAssignment, ValidStableId, Chain;
    var a := d.transfers[id].aggregateId;
    InvParts(s, d);
    assert ValidPlacement(d.assignments, a, d.placements[a]);
    x := d.placements[a].activeTransferId.value;
    ActiveTransferExactly(s, d, a, x);
    if d.transfers[x].phase.Committed? {
      CommittedPlacement(s, d, x);
      LandsOnce(d, x, id, a, d.placements[a].placementGeneration);
    }
  }

  /** The calls an imported transfer still needs, if its aggregate keeps its generation: abort
      whatever was prepared since, then finalize. */
  function CallsLeft(d: Document, id: string): (n: nat)
    requires id in d.transfers && d.transfers[id].aggregateId in d.placements
    ensures n >= 1
  {
    if !Overtaken(d, id) then 1
    else
      match d.placements[d.transfers[id].aggregateId].activeTransferId
      case None => 1
      case Some(x) => if x in d.transfers && d.transfers[x].phase.Aborting? then Rank(d.transfers[x]) + 1 else 5
  }

  /** An imported transfer at the generation its aggregate still has. */
  predicate AtItsGeneration(d: Document, id: string) {
    && id in d.transfers && d.transfers[id].phase.Imported?
    && d.transfers[id].aggregateId in d.placements
    && d.placements[d.transfers[id].aggregateId].placementGeneration == d.transfers[id].resultingPlacementGeneration
  }

  /** Clearing the way: the blocking transfer is aborted, which leaves the aggregate resident at its
      generation and the imported transfer as it was. */
  lemma Unblocks(s: Setting, d: Document, id: string) returns (calls: seq<Event>)
    requires ValidSetting(s) && Inv(s, d) && AtItsGeneration(d, id) && Overtaken(d, id)
    requires d.directoryRevision + CallsLeft(d, id) <= U64_MAX
    ensures |calls| < CallsLeft(d, id)
    ensures var e := Run(s.hash, d, calls);
            && Inv(s, e) && e.directoryRevision == d.directoryRevision + |calls|
            && id in e.transfers && e.transfers[id] == d.transfers[id]
            && e.transfers[id].aggregateId in e.placements && !Overtaken(e, id)
  {
    hide Inv, ValidSetting, Step, ConsistentTransfer;
    var a := d.transfers[id].aggregateId;
    var x := Blocker(s, d, id);
    if d.transfers[x].phase.Aborting? {
      calls := AbortCompletes(s, d, x);
    } else {
      var call := Event(RequestAbort(x), true);
      AbortRequested(s, d, x);
      var d1 := Step(s.hash, d, call);
      var rest := AbortCompletes(s, d1, x);
      calls := [call] + rest;
      RunAppend(s.hash, d, [call], rest);
      RunOne(s.hash, d, call);
    }
    var e := Run(s.hash, d, calls);
    Released(s, d, e, x);
    SameGeneration(s, d, e, x, a);
  }

  predicate Finalizes(hash: CellHash, d: Document, id: string, calls: seq<Event>) {
    var e := Run(hash, d, calls);
    id in e.transfers && e.transfers[id].phase.Finalized?
  }

  /** At its own generation an imported transfer is finalized by the calls it has left. */
  lemma FinalizesInTime(s: Setting, d: Document, id: string) returns (calls: seq<Event>)
    requires ValidSetting(s) && Inv(s, d) && AtItsGeneration(d, id)
    requires d.directoryRevision + CallsLeft(d, id) <= U64_MAX
    ensures |calls| <= CallsLeft(d, id) && Finalizes(s.hash, d, id, calls)
  {
    hide Inv, ValidSetting, Step, NextCall, ConsistentTransfer, AssignmentOf, Overtaken;
    calls := [];
    if Overtaken(d, id) { calls := Unblocks(s, d, id); }
    var e := Run(s.hash, d, calls);
    TransferStart(s, e, id);
    NextStep(s, e, id);
    var last := Event(NextCall(e, id), true);
    RunThen(s.hash, d, calls, last);
    calls := calls + [last];
  }

  // ---- no run is faster ------------------------------------------------------------------

  /** One call takes an abort in progress one proof further at most. */
  lemma AbortSteps(s: Setting, d: Document, action: Action, x: string)
    requires x in d.transfers && Subject(action) == Some(x) && Proposal(s.hash, d, action).Some?
    requires d.transfers[x].phase.Aborting?
    ensures x in Proposal(s.hash, d, action).value.transfers
    ensures var t, u := d.transfers[x], Proposal(s.hash, d, action).value.transfers[x];
            (u.phase.Aborting? || u.phase.Aborted?) && Rank(t) <= Rank(u) + 1
  {
    hide AssignmentOf, ResolveGeneration, ValidHash, ValidStableId, HistoricalAuthority,
      PrepareProofBinds, QuarantineProofBinds, ImportProofBinds, FinalizationProofBinds, AbortProofBinds;
  }

  /** One call takes a transfer before its commit to a neighbouring phase only. */
  lemma EarlySteps(s: Setting, d: Document, action: Action, x: string)
    requires ValidSetting(s) && Inv(s, d) && x in d.transfers && Subject(action) == Some(x)
        && Proposal(s.hash, d, action).Some?
    requires d.transfers[x].phase.Prepared? || d.transfers[x].phase.Quarantined?
    ensures x in Proposal(s.hash, d, action).value.transfers
    ensures var u := Proposal(s.hash, d, action).value.transfers[x];
            u.phase.Prepared? || u.phase.Quarantined? || u.phase.Committed? || (u.phase.Aborting? && Rank(u) == 3)
  {
    hide Inv, ValidSetting, Proposal, PhaseShape, RequestAbortPlan;
    EarlyPhases(s, d, action, x);
    var u := Proposal(s.hash, d, action).value.transfers[x];
    if u.phase.Aborting? {
      BecomesAborting(s, d, action);
      AbortProposal(s.hash, d, x);
      RequestAbortAccepted(s, d, x);
      ShapeOf(s, d, x);
      NoAbortProofs(d.transfers[x]);
    }
  }

  lemma NoAbortProofs(t: CellTransferRecord)
    requires PhaseShape(t) && (t.phase.Prepared? || t.phase.Quarantined?)
    ensures Rank(t.(phase := Aborting)) == 3
  {}

  lemma EarlyPhases(s: Setting, d: Document, action: Action, x: string)
    requires x in d.transfers && Subject(action) == Some(x) && Proposal(s.hash, d, action).Some?
    requires d.transfers[x].phase.Prepared? || d.transfers[x].phase.Quarantined?
    ensures x in Proposal(s.hash, d, action).value.transfers
    ensures var u := Proposal(s.hash, d, action).value.transfers[x];
            u.phase.Prepared? || u.phase.Quarantined? || u.phase.Committed? || u.phase.Aborting?
  {
    hide AssignmentOf, ResolveGeneration, ValidHash, ValidStableId, HistoricalAuthority,
      PrepareProofBinds, QuarantineProofBinds, ImportProofBinds, FinalizationProofBinds, AbortProofBinds;
  }

  lemma ShapeOf(s: Setting, d: Document, x: string)
    requires ValidSetting(s) && Inv(s, d) && x in d.transfers
    ensures PhaseShape(d.transfers[x])
  {
    hide Inv, AssignmentOf, TransferBound, ProofsBound, PlacementMatches, PhaseShape;
    TransferStart(s, d, x);
  }

  lemma CellProposalPlacement(hash: CellHash, d: Document, action: Action, a: string)
    requires Subject(action).None? && Proposal(hash, d, action).Some? && a in d.placements
    ensures a in Proposal(hash, d, action).value.placements
    ensures Proposal(hash, d, action).value.placements[a] == d.placements[a]
  {
    hide AssignmentOf, ValidStableId;
  }

  /** What one written call does to an imported transfer at its own generation: finalize it when
      it had one call left, move its aggregate on, or save at most one call. */
  ghost predicate AtMostOneSaved(d: Document, e: Document, id: string)
    requires AtItsGeneration(d, id)
  {
    && id in e.transfers && e.transfers[id].aggregateId in e.placements
    && (|| (e.transfers[id].phase.Finalized? && CallsLeft(d, id) == 1)
        || (e.transfers[id] == d.transfers[id]
            && e.placements[e.transfers[id].aggregateId].placementGeneration
              > e.transfers[id].resultingPlacementGeneration)
        || (e.transfers[id] == d.transfers[id] && AtItsGeneration(e, id) && CallsLeft(d, id) <= CallsLeft(e, id) + 1))
  }

  lemma StepSavesOne(s: Setting, d: Document, event: Event, id: string)
    requires ValidSetting(s) && Inv(s, d) && AtItsGeneration(d, id)
    ensures var e := Step(s.hash, d, event);
            e == d || (e.directoryRevision == d.directoryRevision + 1 && AtMostOneSaved(d, e, id))
  {
    hide Inv, ValidSetting, Proposal, AtMostOneSaved, TransferEvolves, Overtaken;
    var e := Step(s.hash, d, event);
    StepKeeps(s, d, event);
    if e != d {
      var n := Proposal(s.hash, d, event.action).value;
      RevisionKeepsCount(n, e, id);
      ProposalKeeps(s, d, event.action);
      ProposalSavesOne(s, d, event.action, id);
    }
  }

  lemma RevisionKeepsCount(n: Document, e: Document, id: string)
    requires e == n.(directoryRevision := e.directoryRevision)
    ensures forall d: Document | AtItsGeneration(d, id) && AtMostOneSaved(d, n, id) :: AtMostOneSaved(d, e, id)
  {}

  lemma ProposalSavesOne(s: Setting, d: Document, action: Action, id: string)
    requires ValidSetting(s) && Inv(s, d) && AtItsGeneration(d, id) && Proposal(s.hash, d, action).Some?
    requires Inv(s, Proposal(s.hash, d, action).value)
    ensures AtMostOneSaved(d, Proposal(s.hash, d, action).value, id)
  {
    hide Inv, ValidSetting, Proposal, TransferEvolves, AssignmentOf, ValidHash, ValidStableId, PreparePlan, Moves;
    var n, a := Proposal(s.hash, d, action).value, d.transfers[id].aggregateId;
    if Subject(action).None? {
      CellProposalTransfers(s.hash, d, action);
      CellProposalPlacement(s.hash, d, action, a);
    } else if Subject(action).value !in d.transfers {
      NewTransferProposal(s, d, action);
      PrepareShape(s, d, action.aggregateId, action.expected, action.id, action.key, action.packageHash);
      if Overtaken(d, id) { var x := Blocker(s, d, id); }
    } else if Subject(action).value == id {
      TransferProposal(s, d, action);
      if Overtaken(d, id) { OvertakenRefuses(s, d, id, action); }
      FinalizesOnly(d, n, id);
    } else {
      OtherSavesOne(s, d, action, id);
    }
  }

  lemma FinalizesOnly(d: Document, n: Document, id: string)
    requires Moves(d, n, id) && d.transfers[id].phase.Imported?
    ensures id in n.transfers
    ensures n.transfers[id].phase.Finalized? && n.transfers[id].aggregateId == d.transfers[id].aggregateId
    ensures n.transfers[id].aggregateId in n.placements
  {}

  lemma OtherSavesOne(s: Setting, d: Document, action: Action, id: string)
    requires ValidSetting(s) && Inv(s, d) && AtItsGeneration(d, id) && Proposal(s.hash, d, action).Some?
    requires Inv(s, Proposal(s.hash, d, action).value)
    requires Subject(action).Some? && Subject(action).value in d.transfers && Subject(action).value != id
    ensures AtMostOneSaved(d, Proposal(s.hash, d, action).value, id)
  {
    hide Inv, ValidSetting, Proposal, ConsistentTransfer;
    var n, y := Proposal(s.hash, d, action).value, Subject(action).value;
    var a := d.transfers[id].aggregateId;
    TransferProposal(s, d, action);
    GenerationOf(s, n, id);
    if Overtaken(d, id) {
      var x := Blocker(s, d, id);
      if y == x && d.transfers[x].phase.Aborting? { AbortSteps(s, d, action, x); }
      if y == x && !d.transfers[x].phase.Aborting? { EarlySteps(s, d, action, x); }
      if n.transfers[x].phase.Committed? {
        CommittedPlacement(s, n, x);
        TransferStart(s, d, x);
        TransferFacts(d, x, d.transfers[x]);
      } else if Active(n.transfers[x].phase) {
        StillBlocked(s, n, a, x);
      }
    }
  }

  /** An imported transfer's aggregate never has a smaller generation. */
  lemma GenerationOf(s: Setting, d: Document, id: string)
    requires Inv(s, d) && id in d.transfers && d.transfers[id].phase.Imported?
    ensures d.transfers[id].aggregateId in d.placements
    ensures d.placements[d.transfers[id].aggregateId].placementGeneration
        >= d.transfers[id].resultingPlacementGeneration
  {
    hide Inv, ConsistentTransfer;
    InvParts(s, d);
    TransferFacts(d, id, d.transfers[id]);
  }

  lemma StillBlocked(s: Setting, d: Document, a: string, x: string)
    requires Inv(s, d) && a in d.placements && x in d.transfers && d.transfers[x].aggregateId == a
        && Active(d.transfers[x].phase)
    ensures d.placements[a].activeTransferId == Some(x) && !d.placements[a].state.Resident?
  {
    hide Inv, ConsistentTransfer, ValidAssignment, ValidStableId;
    ActiveTransferExactly(s, d, a, x);
    InvParts(s, d);
    assert ValidPlacement(d.assignments, a, d.placements[a]);
  }

  lemma {:induction false} RunNeedsCalls(s: Setting, d: Document, calls: seq<Event>, id: string)
    requires ValidSetting(s) && Inv(s, d) && AtItsGeneration(d, id) && Finalizes(s.hash, d, id, calls)
    ensures d.directoryRevision + CallsLeft(d, id) <= U64_MAX
    decreases |calls|
  {
    hide Inv, ValidSetting, Step, CallsLeft;
    if calls != [] {
      var e := Step(s.hash, d, calls[0]);
      StepSavesOne(s, d, calls[0], id);
      StepKeeps(s, d, calls[0]);
      if e == d || (e.transfers[id] == d.transfers[id] && AtItsGeneration(e, id)) {
        RunNeedsCalls(s, e, calls[1..], id);
      } else if e.transfers[id] == d.transfers[id] {
        StrandedForever(s, e, calls[1..], id);
      }
    }
  }

  /** Exactly when an imported transfer can still finalize: some run does it if and only if its
      aggregate has no newer generation and the revisions left cover the calls left, five at most.
      With a newer generation no run does, ever. */
  lemma FinalizableExactly(s: Setting, d: Document, id: string)
    requires ValidSetting(s) && Inv(s, d) && id in d.transfers && d.transfers[id].phase.Imported?
    requires d.transfers[id].aggregateId in d.placements
    ensures (exists calls :: Finalizes(s.hash, d, id, calls))
            <==> AtItsGeneration(d, id) && d.directoryRevision + CallsLeft(d, id) <= U64_MAX
    ensures CallsLeft(d, id) <= 5
  {
    AbortsAreShort(d, id);
    hide Inv, ValidSetting, ConsistentTransfer, Run, CallsLeft;
    var t, p := d.transfers[id], d.placements[d.transfers[id].aggregateId];
    if p.placementGeneration == t.resultingPlacementGeneration {
      if d.directoryRevision + CallsLeft(d, id) <= U64_MAX { var calls := FinalizesInTime(s, d, id); }
      forall calls | Finalizes(s.hash, d, id, calls) ensures d.directoryRevision + CallsLeft(d, id) <= U64_MAX {
        RunNeedsCalls(s, d, calls, id);
      }
    } else {
      GenerationOf(s, d, id);
      forall calls ensures !Finalizes(s.hash, d, id, calls) {
        StrandedForever(s, d, calls, id);
      }
    }
  }

  lemma AbortsAreShort(d: Document, id: string)
    requires id in d.transfers && d.transfers[id].aggregateId in d.placements
    ensures CallsLeft(d, id) <= 5
  {}

  // ---- stranding -------------------------------------------------------------------------

  /** Sending a landed aggregate back before its transfer finalizes. */
  lemma PrepareBack(s: Setting, d: Document, id: string, second: string)
    requires ValidSetting(s) && Inv(s, d) && id in d.transfers && d.transfers[id].phase.Imported?
    requires TransferNamesRecords(d, d.transfers[id]) && !Overtaken(d, id)
    requires second !in d.transfers && ValidStableId(second)
    requires d.directoryRevision < U64_MAX && d.transfers[id].resultingPlacementGeneration < U64_MAX
    ensures var t := d.transfers[id];
            var e := Step(s.hash, d, Event(Prepare(t.aggregateId, t.resultingPlacementGeneration, second,
                t.sourceCellKey, ZeroHash()), true));
            && Inv(s, e) && e.directoryRevision == d.directoryRevision + 1
            && id in e.transfers && e.transfers[id] == t && second in e.transfers
              && TransferNamesRecords(e, e.transfers[second])
            && e.transfers[second].phase.Prepared? && e.transfers[second].sourcePrepareProof.None?
            && e.transfers[second].aggregateId == t.aggregateId
            && e.transfers[second].resultingPlacementGeneration == t.resultingPlacementGeneration + 1
  {
    hide Inv, ValidSetting, AssignmentOf, ValidHash, ValidStableId, ProofsBound, PhaseShape, ValidAssignment,
        ValidPlacement;
    var t := d.transfers[id];
    StepKeeps(s, d, Event(Prepare(t.aggregateId, t.resultingPlacementGeneration, second, t.sourceCellKey, ZeroHash()),
      true));
    LiveTransferPins(s, d, id);
    TransferStart(s, d, id);
    PrepareBackAccepted(s, d, id, second);
    TransferStart(s, Step(s.hash, d, Event(Prepare(t.aggregateId, t.resultingPlacementGeneration, second,
      t.sourceCellKey, ZeroHash()), true)), second);
  }

  lemma PrepareBackAccepted(s: Setting, d: Document, id: string, second: string)
    requires ValidSetting(s) && Inv(s, d) && id in d.transfers && d.transfers[id].phase.Imported?
    requires TransferNamesRecords(d, d.transfers[id]) && !Overtaken(d, id)
    requires second !in d.transfers && ValidStableId(second) && d.transfers[id].resultingPlacementGeneration < U64_MAX
    ensures var t := d.transfers[id];
            PreparePlan(s.hash, d, t.aggregateId, t.resultingPlacementGeneration, second, t.sourceCellKey,
              ZeroHash()).Install?
  {
    hide Inv, ValidSetting, AssignmentOf, ValidHash, ValidStableId, ProofsBound, PhaseShape, ValidHistory,
        AssignmentsHold, TransfersHold,
         LinksHold, Chain;
    TransferStart(s, d, id);
    InvParts(s, d);
    AssignmentKnown(s, d, d.placements[d.transfers[id].aggregateId].cellId);
    LiveTransferPins(s, d, id);
  }

  /** Stranding does happen: from any document with an imported transfer that could still
      finalize, four ordinary calls move its aggregate on and leave it imported for good. */
  lemma CanStrand(s: Setting, d: Document, id: string, second: string) returns (calls: seq<Event>)
    requires ValidSetting(s) && Inv(s, d) && id in d.transfers && d.transfers[id].phase.Imported?
    requires TransferNamesRecords(d, d.transfers[id]) && !Overtaken(d, id)
    requires second !in d.transfers && ValidStableId(second)
    requires d.directoryRevision <= U64_MAX - 4 && d.transfers[id].resultingPlacementGeneration < U64_MAX
    ensures |calls| == 4
    ensures var e := Run(s.hash, d, calls);
            && Inv(s, e) && id in e.transfers && e.transfers[id] == d.transfers[id]
              && d.transfers[id].aggregateId in e.placements
            && e.placements[d.transfers[id].aggregateId].placementGeneration
              > d.transfers[id].resultingPlacementGeneration
            && e.directoryRevision == d.directoryRevision + 4
  {
    hide Inv, ValidSetting, Step, NextCall, TransferNamesRecords, MovedTo;
    var t := d.transfers[id];
    var c0 := Event(Prepare(t.aggregateId, t.resultingPlacementGeneration, second, t.sourceCellKey, ZeroHash()), true);
    PrepareBack(s, d, id, second);
    var d1 := Step(s.hash, d, c0);
    var d2 := Following(s, d1, second);
    var d3 := Following(s, d2, second);
    var d4 := Following(s, d3, second);
    calls := [c0, Event(NextCall(d1, second), true), Event(NextCall(d2, second), true),
      Event(NextCall(d3, second), true)];
    RunFour(s.hash, d, calls);
    CommittedPlacement(s, d4, second);
  }

  /** The document after a transfer's next call. */
  lemma Following(s: Setting, d: Document, id: string) returns (e: Document)
    requires ValidSetting(s) && Inv(s, d) && id in d.transfers && TransferNamesRecords(d, d.transfers[id])
    requires !Terminal(d.transfers[id].phase) && !d.transfers[id].phase.Imported? && d.directoryRevision < U64_MAX
    ensures e == Step(s.hash, d, Event(NextCall(d, id), true)) && Inv(s, e) && MovedTo(d, e, id)
    ensures e.directoryRevision == d.directoryRevision + 1 && OnlyOneMoved(d, e, id)
    ensures SameBinding(d.transfers[id], e.transfers[id]) && Advances(d.transfers[id], e.transfers[id])
    ensures TransferNamesRecords(e, e.transfers[id])
  {
    hide Inv, ValidSetting, Step, NextCall;
    e := Step(s.hash, d, Event(NextCall(d, id), true));
    NextStep(s, d, id);
    MovedIsOnlyOne(d, e, id);
  }

  /** Four calls carry a freshly prepared transfer to its import. */
  lemma CarriedToImport(s: Setting, d: Document, id: string) returns (calls: seq<Event>)
    requires ValidSetting(s) && Inv(s, d) && id in d.transfers && d.directoryRevision <= U64_MAX - 4
    requires d.transfers[id].phase.Prepared? && d.transfers[id].sourcePrepareProof.None?
    ensures |calls| == 4
    ensures var e := Run(s.hash, d, calls);
            && Inv(s, e) && e.directoryRevision == d.directoryRevision + 4 && e.transfers.Keys == d.transfers.Keys
            && e.transfers[id].phase.Imported? && SameBinding(d.transfers[id], e.transfers[id])
            && TransferNamesRecords(e, e.transfers[id]) && !Overtaken(e, id)
  {
    hide Inv, ValidSetting, Step, NextCall, TransferNamesRecords, MovedTo, Overtaken, ConsistentTransfer, AssignmentOf;
    TransferStart(s, d, id);
    var d1 := Following(s, d, id);
    var d2 := Following(s, d1, id);
    var d3 := Following(s, d2, id);
    var d4 := Following(s, d3, id);
    ImportRests(s, d3, d4, id);
    calls := [Event(NextCall(d, id), true), Event(NextCall(d1, id), true), Event(NextCall(d2, id), true),
      Event(NextCall(d3, id), true)];
    RunFour(s.hash, d, calls);
  }

  /** The first move of a fresh directory carried to its import, in eight calls. */
  lemma FirstImport(s: Setting, x: CellId, y: CellId) returns (calls: seq<Event>)
    requires ValidSetting(s) && FreshCells(s) && x in s.expected && y in s.expected && x != y
    ensures |calls| == 8
    ensures var d := Run(s.hash, InitialDocument(s.manifest, s.expected), calls);
            && Inv(s, d) && d.directoryRevision == 9
            && d.transfers.Keys == {"move"} && d.transfers["move"].phase.Imported?
            && d.transfers["move"].resultingPlacementGeneration == 2
            && TransferNamesRecords(d, d.transfers["move"]) && !Overtaken(d, "move")
  {
    hide Inv, ValidSetting, Run, TransferNamesRecords, Overtaken, AbortsProved, FirstCalls;
    var d0 := InitialDocument(s.manifest, s.expected);
    var first := FirstCalls(s.expected[x].cellKey, s.expected[y].cellKey);
    assert |first| == 4 by { FirstCallsCount(s.expected[x].cellKey, s.expected[y].cellKey); }
    var d := FirstPrepare(s, x, y);
    var rest := CarriedToImport(s, d, "move");
    calls := first + rest;
    RunAppend(s.hash, d0, first, rest);
  }

  lemma FirstCallsCount(from: CellKey, to: CellKey)
    ensures |FirstCalls(from, to)| == 4
  {}

  /** A stranded transfer is reached from every fresh directory: twelve ordinary calls, after which
      no run finalizes the first move. */
  lemma StrandedRun(s: Setting, x: CellId, y: CellId) returns (calls: seq<Event>)
    requires ValidSetting(s) && FreshCells(s) && x in s.expected && y in s.expected && x != y
    ensures |calls| == 12
    ensures var d := Run(s.hash, InitialDocument(s.manifest, s.expected), calls);
            && "move" in d.transfers && d.transfers["move"].phase.Imported?
            && forall later :: !Finalizes(s.hash, d, "move", later)
  {
    hide Inv, ValidSetting, Run, TransferNamesRecords, Overtaken, Finalizes;
    var d0 := InitialDocument(s.manifest, s.expected);
    var first := FirstImport(s, x, y);
    assert ValidStableId("back");
    var rest := CanStrand(s, Run(s.hash, d0, first), "move", "back");
    calls := first + rest;
    RunAppend(s.hash, d0, first, rest);
    FinalizableExactly(s, Run(s.hash, d0, calls), "move");
  }
}
