/** Whole runs of the directory: any sequence of calls, any arguments, any write failing. */
module DirectoryRuns {
  import opened Prelude
  import opened Address
  import opened CellDirectory
  import opened DirectoryInvariant
  import opened DirectorySteps

  datatype Action =
    | Claim(key: CellKey, expected: u64, holderId: string, fence: u64)
    | Release(key: CellKey, expected: u64, holderId: string)
    | Recover(key: CellKey, expected: u64, holderId: string, fence: u64)
    | Register(aggregateId: string, kind: MobileAggregateKind, key: CellKey)
    | Prepare(aggregateId: string, expected: u64, id: string, key: CellKey, packageHash: string)
    | RecordSourcePrepared(id: string, prepareProof: PrepareProof)
    | RecordQuarantine(id: string, packageHash: string, receiptHash: string, quarantineProof: QuarantineProof)
    | CommitTransfer(id: string, expected: u64)
    | RecordImported(id: string, importProof: ImportProof)
    | FinalizeTransfer(id: string, finalizationProof: FinalizationProof)
    | RequestAbort(id: string)
    | RecordAbortCleanup(id: string, abortProof: AbortProof)
    | FinalizeAbort(id: string)

  function Proposed<R>(plan: Plan<R>): Option<Document> {
    match plan
    case Install(next, _) => Some(next)
    case _ => None
  }

  /** The document a call proposes to install, if it proposes one. */
  function Proposal(hash: CellHash, d: Document, action: Action): Option<Document> {
    match action
    case Claim(key, expected, holderId, fence) => Proposed(ClaimPlan(hash, d, key, expected, holderId, fence))
    case Release(key, expected, holderId) => Proposed(ReleasePlan(hash, d, key, expected, holderId))
    case Recover(key, expected, holderId, fence) => Proposed(RecoverPlan(hash, d, key, expected, holderId, fence))
    case Register(a, kind, key) => Proposed(RegisterPlan(hash, d, a, kind, key))
    case Prepare(a, expected, id, key, packageHash) => Proposed(PreparePlan(hash, d, a, expected, id, key, packageHash))
    case RecordSourcePrepared(id, proof) => Proposed(SourcePreparedPlan(hash, d, id, proof))
    case RecordQuarantine(id, packageHash, receiptHash, proof) =>
      Proposed(QuarantinePlan(hash, d, id, packageHash, receiptHash, proof))
    case CommitTransfer(id, expected) => Proposed(CommitPlan(hash, d, id, expected))
    case RecordImported(id, proof) => Proposed(ImportPlan(hash, d, id, proof))
    case FinalizeTransfer(id, proof) => Proposed(FinalizePlan(hash, d, id, proof))
    case RequestAbort(id) => Proposed(RequestAbortPlan(d, id))
    case RecordAbortCleanup(id, proof) => Proposed(AbortCleanupPlan(hash, d, id, proof))
    case FinalizeAbort(id) => Proposed(FinalizeAbortPlan(d, id))
  }

  /** A call and whether its write reaches the disk. */
  datatype Event = Event(action: Action, durable: bool)

  function Step(hash: CellHash, d: Document, event: Event): Document {
    match Proposal(hash, d, event.action)
    case None => d
    case Some(next) => Commit(d, next, event.durable).0
  }

  function Run(hash: CellHash, d: Document, events: seq<Event>): Document
    decreases |events|
  {
    if events == [] then d else Run(hash, Step(hash, d, events[0]), events[1..])
  }

  // ---- the invariant over runs -----------------------------------------------------------

  lemma ProposalKeeps(s: Setting, d: Document, action: Action)
    requires ValidSetting(s) && Inv(s, d) && Proposal(s.hash, d, action).Some?
    ensures Inv(s, Proposal(s.hash, d, action).value)
  {
    hide Inv, ValidSetting, ClaimPlan, ReleasePlan, RecoverPlan, RegisterPlan, PreparePlan, SourcePreparedPlan,
        QuarantinePlan,
      CommitPlan, ImportPlan, FinalizePlan, RequestAbortPlan, AbortCleanupPlan, FinalizeAbortPlan;
    match action {
      case Claim(key, expected, holderId, fence) => ClaimKeeps(s, d, key, expected, holderId, fence);
      case Release(key, expected, holderId) => ReleaseKeeps(s, d, key, expected, holderId);
      case Recover(key, expected, holderId, fence) => RecoverKeeps(s, d, key, expected, holderId, fence);
      case Register(a, kind, key) => RegisterKeeps(s, d, a, kind, key);
      case Prepare(a, expected, id, key, packageHash) => PrepareKeeps(s, d, a, expected, id, key, packageHash);
      case RecordSourcePrepared(id, proof) => SourcePreparedKeeps(s, d, id, proof);
      case RecordQuarantine(id, packageHash, receiptHash, proof) =>
        QuarantineKeeps(s, d, id, packageHash, receiptHash, proof);
      case CommitTransfer(id, expected) => CommitKeeps(s, d, id, expected);
      case RecordImported(id, proof) => ImportKeeps(s, d, id, proof);
      case FinalizeTransfer(id, proof) => FinalizeKeeps(s, d, id, proof);
      case RequestAbort(id) => RequestAbortKeeps(s, d, id);
      case RecordAbortCleanup(id, proof) => AbortCleanupKeeps(s, d, id, proof);
      case FinalizeAbort(id) => FinalizeAbortKeeps(s, d, id);
    }
  }

  lemma RevisionKeeps(s: Setting, d: Document, revision: u64)
    requires Inv(s, d) && revision > 0
    ensures Inv(s, d.(directoryRevision := revision))
  {
    hide ConsistentTransfer, ValidAssignment, ValidPlacement;
    var e := d.(directoryRevision := revision);
    forall x | x in e.transfers ensures ConsistentTransfer(e, x, e.transfers[x]) {
      TransferFacts(d, x, d.transfers[x]);
      ConsistentFrame(d, e, x, d.transfers[x]);
    }
    ChainUnchanged(d, e);
  }

  lemma StepKeeps(s: Setting, d: Document, event: Event)
    requires ValidSetting(s) && Inv(s, d)
    ensures Inv(s, Step(s.hash, d, event))
  {
    hide Inv, ValidSetting, Proposal;
    match Proposal(s.hash, d, event.action) {
      case None =>
      case Some(next) =>
        ProposalKeeps(s, d, event.action);
        if d.directoryRevision < U64_MAX { RevisionKeeps(s, next, d.directoryRevision + 1); }
    }
  }

  lemma {:induction false} RunKeeps(s: Setting, d: Document, events: seq<Event>)
    requires ValidSetting(s) && Inv(s, d)
    ensures Inv(s, Run(s.hash, d, events))
    decreases |events|
  {
    hide Inv, ValidSetting, Step;
    if events != [] {
      StepKeeps(s, d, events[0]);
      RunKeeps(s, Step(s.hash, d, events[0]), events[1..]);
    }
  }

  /** What `canonical_assignments` builds: every cell asleep, with no history. */
  ghost predicate FreshCells(s: Setting) {
    forall id | id in s.expected ::
      s.expected[id] == CellAssignmentRecord(s.expected[id].cellKey, id, 0, 0, map[], Sleeping, None)
  }

  /** The document of a directory opened for the first time. */
  function InitialDocument(manifest: Manifest, expected: map<CellId, CellAssignmentRecord>): Document {
    Document(CELL_DIRECTORY_SCHEMA_VERSION, manifest.universeId, manifest.manifestHash, 1, expected, map[], map[])
  }

  lemma InitialHolds(s: Setting)
    requires ValidSetting(s) && FreshCells(s)
    ensures Inv(s, InitialDocument(s.manifest, s.expected))
    ensures var d := InitialDocument(s.manifest, s.expected);
            && d.directoryRevision == 1 && d.placements == map[] && d.transfers == map[]
            && forall id | id in d.assignments ::
                 d.assignments[id].state.Sleeping? && d.assignments[id].assignmentGeneration == 0
  {
    var d := InitialDocument(s.manifest, s.expected);
    forall id | id in d.assignments ensures ValidAssignment(id, s.expected[id].cellKey, d.assignments[id]) {
      assert d.assignments[id] == s.expected[id];
    }
  }

  /** A document reached by some run from a fresh directory. */
  ghost predicate Reachable(s: Setting, d: Document) {
    exists events :: d == Run(s.hash, InitialDocument(s.manifest, s.expected), events)
  }

  lemma ReachableHolds(s: Setting, d: Document)
    requires ValidSetting(s) && FreshCells(s) && Reachable(s, d)
    ensures Inv(s, d)
  {
    hide Inv, ValidSetting, FreshCells;
    var events :| d == Run(s.hash, InitialDocument(s.manifest, s.expected), events);
    InitialHolds(s);
    RunKeeps(s, InitialDocument(s.manifest, s.expected), events);
  }

  // ---- reopening -------------------------------------------------------------------------

  /** Every abort in progress had its source prepare proof recorded. */
  ghost predicate AbortsProved(d: Document) {
    forall id | id in d.transfers && d.transfers[id].phase.Aborting? :: d.transfers[id].sourcePrepareProof.Some?
  }

  lemma HoldsReopens(s: Setting, d: Document)
    requires Inv(s, d)
    ensures ValidDocument(d, s.manifest, s.expected) <==> AbortsProved(d)
  {
    hide ValidHash, ValidStableId, ValidAssignment, ValidPlacement, Chain;
    forall id | id in d.transfers
      ensures ValidTransfer(d, id, d.transfers[id]) <==>
              (d.transfers[id].phase.Aborting? ==> d.transfers[id].sourcePrepareProof.Some?)
    {
      TransferReopens(d, id);
    }
    assert ValidDocument(d, s.manifest, s.expected) ==>
        forall id | id in d.transfers :: ValidTransfer(d, id, d.transfers[id]);
  }

  lemma TransferReopens(d: Document, id: string)
    requires id in d.transfers && ConsistentTransfer(d, id, d.transfers[id])
    ensures ValidTransfer(d, id, d.transfers[id]) <==>
            (d.transfers[id].phase.Aborting? ==> d.transfers[id].sourcePrepareProof.Some?)
  {
    hide TransferBound, ProofsBound, PlacementMatches, PhaseShape;
  }

  /** Every reachable document passes the validator, and so opens again, exactly when no abort is
      in progress without its source prepare proof. */
  lemma ReachableReopens(s: Setting, d: Document)
    requires ValidSetting(s) && FreshCells(s) && Reachable(s, d)
    ensures ValidDocument(d, s.manifest, s.expected) <==> AbortsProved(d)
  {
    hide Inv, ValidSetting, FreshCells, Reachable, ValidDocument;
    ReachableHolds(s, d);
    HoldsReopens(s, d);
  }
}
