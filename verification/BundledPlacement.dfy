/** Moving a grid and its riders as one unit: the plan, its validation, and the staging of one
    transition over all member placements. */
module BundledPlacement {
  import opened Prelude
  import opened Address
  import opened Order
  import opened CellDirectory
  import opened DirectoryInvariant
  import opened DirectorySteps

  datatype Member = Member(aggregateId: string, aggregateKind: MobileAggregateKind, prior: u64, resulting: u64)

  /** What the member root commits to. */
  datatype RootMaterial = RootMaterial(
    rootAggregateId: string, sourceKey: CellKey, sourceId: CellId, destinationKey: CellKey, destinationId: CellId,
      members: seq<Member>)

  datatype BundlePlan = BundlePlan(material: RootMaterial, memberRoot: string) {
    function Members(): seq<Member> { material.members }
  }

  datatype Transition = Prepare | Commit | Import | Abort

  /** The two uninterpreted hashes: of a cell key and of the root material. */
  datatype Hashes = Hashes(cell: CellHash, root: RootMaterial -> string)

  type Placements = map<string, AggregatePlacementRecord>

  predicate MemberAdvances(m: Member) {
    ValidStableId(m.aggregateId) && m.prior != 0 && m.prior + 1 == m.resulting
  }

  predicate MemberKind(m: Member, rootId: string) {
    if m.aggregateId == rootId then m.aggregateKind.Grid? else m.aggregateKind.Player?
  }

  predicate CellsValid(h: Hashes, r: RootMaterial) {
    && ValidCellKey(r.sourceKey) && ValidCellKey(r.destinationKey)
    && r.sourceKey != r.destinationKey
    && r.sourceKey.universeId == r.destinationKey.universeId
    && h.cell(r.sourceKey) == r.sourceId && h.cell(r.destinationKey) == r.destinationId
  }

  /** What `BundledPlacementPlan::validate` accepts: members in strict id order, each advancing by
      one, exactly one of them the grid root, all others player riders. */
  ghost predicate ValidPlan(h: Hashes, plan: BundlePlan) {
    var r := plan.material;
    && ValidStableId(r.rootAggregateId)
    && CellsValid(h, r)
    && 1 <= |r.members| <= 128
    && plan.memberRoot == h.root(r)
    && (forall i | 0 <= i < |r.members| :: MemberAdvances(r.members[i]) && MemberKind(r.members[i], r.rootAggregateId))
    && (forall i, j | 0 <= i < j < |r.members| :: LexLess(r.members[i].aggregateId, r.members[j].aggregateId))
    && (exists i :: 0 <= i < |r.members| && r.members[i].aggregateId == r.rootAggregateId)
  }

  method Validate(h: Hashes, plan: BundlePlan) returns (valid: bool)
    ensures valid <==> ValidPlan(h, plan)
  {
    hide ValidStableId, CellsValid, LexLess;
    var r := plan.material;
    if !ValidStableId(r.rootAggregateId) || !CellsValid(h, r) { return false; }
    if r.members == [] || |r.members| > 128 || plan.memberRoot != h.root(r) { return false; }
    var sawRoot := false;
    var priorId: Option<string> := None;
    for i := 0 to |r.members|
      invariant forall k | 0 <= k < i :: MemberAdvances(r.members[k]) && MemberKind(r.members[k], r.rootAggregateId)
      invariant forall j, k | 0 <= j < k < i :: LexLess(r.members[j].aggregateId, r.members[k].aggregateId)
      invariant priorId == if i == 0 then None else Some(r.members[i - 1].aggregateId)
      invariant sawRoot <==> exists k :: 0 <= k < i && r.members[k].aggregateId == r.rootAggregateId
    {
      var member := r.members[i];
      if !ValidStableId(member.aggregateId) { return false; }
      if || (priorId.Some? && !LexLess(priorId.value, member.aggregateId))
         || member.prior == 0 || member.prior + 1 != member.resulting {
        return false;
      }
      forall k | 0 <= k < i ensures LexLess(r.members[k].aggregateId, member.aggregateId) {
        if k < i - 1 { LexTransitive(r.members[k].aggregateId, r.members[i - 1].aggregateId, member.aggregateId); }
      }
      if member.aggregateId == r.rootAggregateId {
        if sawRoot {
          var k :| 0 <= k < i && r.members[k].aggregateId == r.rootAggregateId;
          LexIrreflexive(member.aggregateId);
        }
        if !member.aggregateKind.Grid? || sawRoot { return false; }
        sawRoot := true;
      } else if !member.aggregateKind.Player? {
        return false;
      }
      priorId := Some(member.aggregateId);
    }
    valid := sawRoot;
  }

  /** Member ids are distinct. */
  lemma MembersDistinct(h: Hashes, plan: BundlePlan, i: nat, j: nat)
    requires ValidPlan(h, plan) && i < |plan.Members()| && j < |plan.Members()|
    requires plan.Members()[i].aggregateId == plan.Members()[j].aggregateId
    ensures i == j
  {
    hide CellsValid, ValidStableId;
    LexIrreflexive(plan.Members()[i].aggregateId);
  }

  predicate IsMember(plan: BundlePlan, id: string) {
    exists i :: 0 <= i < |plan.Members()| && plan.Members()[i].aggregateId == id
  }

  predicate Matches(plan: BundlePlan, transferId: string, transition: Transition, m: Member,
      p: AggregatePlacementRecord) {
    var r := plan.material;
    && p.aggregateId == m.aggregateId && p.aggregateKind == m.aggregateKind
    && match transition
       case Prepare =>
         && p.cellKey == r.sourceKey && p.cellId == r.sourceId && p.placementGeneration == m.prior
         && p.state.Resident? && p.activeTransferId.None?
       case Commit | Abort =>
         && p.cellKey == r.sourceKey && p.cellId == r.sourceId && p.placementGeneration == m.prior
         && p.state.Preparing? && p.activeTransferId == Some(transferId)
       case Import =>
         && p.cellKey == r.destinationKey && p.cellId == r.destinationId && p.placementGeneration == m.resulting
         && p.state.InTransit? && p.activeTransferId == Some(transferId)
  }

  function Moved(plan: BundlePlan, transferId: string, transition: Transition, m: Member,
      p: AggregatePlacementRecord): AggregatePlacementRecord {
    match transition
    case Prepare => p.(state := Preparing, activeTransferId := Some(transferId))
    case Commit => p.(cellKey := plan.material.destinationKey, cellId := plan.material.destinationId,
                      placementGeneration := m.resulting, state := InTransit)
    case Import | Abort => p.(state := Resident, activeTransferId := None)
  }

  /** No placement outside the bundle is active under this transfer. */
  ghost predicate NoStrangers(placements: Placements, plan: BundlePlan, transferId: string) {
    forall id | id in placements && placements[id].activeTransferId == Some(transferId) :: IsMember(plan, id)
  }

  ghost predicate AllMatch(placements: Placements, plan: BundlePlan, transferId: string, transition: Transition) {
    forall i | 0 <= i < |plan.Members()| ::
      plan.Members()[i].aggregateId in placements
      && Matches(plan, transferId, transition, plan.Members()[i], placements[plan.Members()[i].aggregateId])
  }

  ghost predicate Accepted(h: Hashes, placements: Placements, plan: BundlePlan, transferId: string,
      durableRoot: string, transition: Transition) {
    && ValidPlan(h, plan) && ValidStableId(transferId) && ValidHash(durableRoot)
    && durableRoot == plan.memberRoot
    && NoStrangers(placements, plan, transferId)
    && AllMatch(placements, plan, transferId, transition)
  }

  /** Every member is moved and nothing else is. */
  ghost predicate MovesExactly(before: Placements, plan: BundlePlan, transferId: string, transition: Transition,
      after: Placements) {
    && after.Keys == before.Keys
    && (forall id | id in before && !IsMember(plan, id) :: after[id] == before[id])
    && (forall i | 0 <= i < |plan.Members()| ::
          var m := plan.Members()[i];
          m.aggregateId in before
            && after[m.aggregateId] == Moved(plan, transferId, transition, m, before[m.aggregateId]))
  }

  predicate MemberReady(placements: Placements, plan: BundlePlan, transferId: string, transition: Transition, i: nat)
    requires i < |plan.Members()|
  {
    var id := plan.Members()[i].aggregateId;
    id in placements && Matches(plan, transferId, transition, plan.Members()[i], placements[id])
  }

  /** The first member in plan order that is absent or in the wrong phase. */
  predicate FirstUnready(placements: Placements, plan: BundlePlan, transferId: string, transition: Transition, i: nat) {
    && i < |plan.Members()| && !MemberReady(placements, plan, transferId, transition, i)
    && forall k: nat | k < i :: MemberReady(placements, plan, transferId, transition, k)
  }

  function MemberError(placements: Placements, plan: BundlePlan, transferId: string, i: nat): DirectoryError
    requires i < |plan.Members()|
  {
    var id := plan.Members()[i].aggregateId;
    if id in placements then TransferConflict(transferId) else UnknownAggregate(id)
  }

  /** The first loop: every member present and in the right phase, before anything is edited; the
      error is that of the first member that is not. */
  method CheckMembers(placements: Placements, plan: BundlePlan, transferId: string, transition: Transition)
      returns (error: Option<DirectoryError>)
    ensures error.None? <==> AllMatch(placements, plan, transferId, transition)
    ensures error.Some? ==>
              exists i :: FirstUnready(placements, plan, transferId, transition, i)
                          && error.value == MemberError(placements, plan, transferId, i)
  {
    hide Matches;
    var members := plan.Members();
    for i := 0 to |members|
      invariant forall k: nat | k < i :: MemberReady(placements, plan, transferId, transition, k)
    {
      if members[i].aggregateId !in placements {
        assert FirstUnready(placements, plan, transferId, transition, i);
        return Some(UnknownAggregate(members[i].aggregateId));
      }
      if !Matches(plan, transferId, transition, members[i], placements[members[i].aggregateId]) {
        assert FirstUnready(placements, plan, transferId, transition, i);
        return Some(TransferConflict(transferId));
      }
    }
    assert AllMatch(placements, plan, transferId, transition) by {
      forall k | 0 <= k < |members|
        ensures members[k].aggregateId in placements
            && Matches(plan, transferId, transition, members[k], placements[members[k].aggregateId])
      {
        assert MemberReady(placements, plan, transferId, transition, k);
      }
    }
    error := None;
  }

  /** The second loop: the edit of a copy. */
  method MoveMembers(ghost h: Hashes, placements: Placements, plan: BundlePlan, transferId: string,
      transition: Transition) returns (staged: Placements)
    requires ValidPlan(h, plan) && AllMatch(placements, plan, transferId, transition)
    ensures MovesExactly(placements, plan, transferId, transition, staged)
  {
    hide Matches, Moved, ValidPlan;
    var members := plan.Members();
    staged := placements;
    for i := 0 to |members|
      invariant staged.Keys == placements.Keys
      invariant forall id | id in placements && !IsMember(plan, id) :: staged[id] == placements[id]
      invariant forall k | 0 <= k < i ::
        staged[members[k].aggregateId]
          == Moved(plan, transferId, transition, members[k], placements[members[k].aggregateId])
      invariant forall k | i <= k < |members| :: staged[members[k].aggregateId] == placements[members[k].aggregateId]
    {
      var member := members[i];
      forall k | 0 <= k < |members| && k != i ensures members[k].aggregateId != member.aggregateId {
        if members[k].aggregateId == member.aggregateId { MembersDistinct(h, plan, k, i); }
      }
      assert IsMember(plan, member.aggregateId);
      staged := staged[member.aggregateId := Moved(plan, transferId, transition, member, staged[member.aggregateId])];
    }
  }

  /** The three checks made before any state is looked at. */
  ghost predicate Sound(h: Hashes, plan: BundlePlan, transferId: string, durableRoot: string) {
    ValidPlan(h, plan) && ValidStableId(transferId) && ValidHash(durableRoot)
  }

  /** The plan is the durable one and no other placement is active under its transfer. */
  ghost predicate Unclaimed(placements: Placements, plan: BundlePlan, transferId: string, durableRoot: string) {
    durableRoot == plan.memberRoot && NoStrangers(placements, plan, transferId)
  }

  /** `stage_bundled_placement_transition`: every member moved in one result, or refused with the
      error of the first check that fails: the plan, the member root, a foreign active placement,
      the first member that is absent or in the wrong phase. */
  method Stage(h: Hashes, placements: Placements, plan: BundlePlan, transferId: string, durableRoot: string,
      transition: Transition)
    returns (r: Result<Placements, DirectoryError>)
    ensures r.Ok? <==> Accepted(h, placements, plan, transferId, durableRoot, transition)
    ensures r.Ok? ==> MovesExactly(placements, plan, transferId, transition, r.value)
    ensures r == Err(InvalidDirectory) <==> !Sound(h, plan, transferId, durableRoot)
    ensures Sound(h, plan, transferId, durableRoot) && !Unclaimed(placements, plan, transferId, durableRoot) ==>
              r == Err(TransferConflict(transferId))
    ensures Sound(h, plan, transferId, durableRoot) && Unclaimed(placements, plan, transferId, durableRoot) ==>
              || r.Ok?
              || exists i :: FirstUnready(placements, plan, transferId, transition, i)
                             && r.error == MemberError(placements, plan, transferId, i)
  {
    hide ValidStableId, ValidHash, ValidPlan, AllMatch, MovesExactly, IsMember;
    var valid := Validate(h, plan);
    if !valid || !ValidStableId(transferId) || !ValidHash(durableRoot) { return Err(InvalidDirectory); }
    if durableRoot != plan.memberRoot { return Err(TransferConflict(transferId)); }
    if exists id :: id in placements && placements[id].activeTransferId == Some(transferId) && !IsMember(plan, id) {
      return Err(TransferConflict(transferId));
    }
    var error := CheckMembers(placements, plan, transferId, transition);
    if error.Some? { return Err(error.value); }
    var staged := MoveMembers(h, placements, plan, transferId, transition);
    r := Ok(staged);
  }

  // ---- one record per phase --------------------------------------------------------------

  /** A member at the source under its prior generation, or at the destination one generation up. */
  function AtSource(plan: BundlePlan, m: Member, state: AggregatePlacementState,
      active: Option<string>): AggregatePlacementRecord {
    AggregatePlacementRecord(m.aggregateId, m.aggregateKind, plan.material.sourceKey, plan.material.sourceId, m.prior,
      state, active)
  }

  function AtDestination(plan: BundlePlan, m: Member, state: AggregatePlacementState,
      active: Option<string>): AggregatePlacementRecord {
    AggregatePlacementRecord(m.aggregateId, m.aggregateKind, plan.material.destinationKey, plan.material.destinationId,
      m.resulting, state, active)
  }

  /** Each transition accepts exactly one record of a member and leaves exactly one, so that the four
      lead from rest at the source through one another to rest at the destination, or back. */
  lemma OneRecordPerPhase(plan: BundlePlan, transferId: string, m: Member, p: AggregatePlacementRecord)
    ensures var resting, preparing := AtSource(plan, m, Resident, None), AtSource(plan, m, Preparing, Some(transferId));
            var moving, landed :=
                AtDestination(plan, m, InTransit, Some(transferId)), AtDestination(plan, m, Resident, None);
            && (Matches(plan, transferId, Prepare, m, p) <==> p == resting)
            && (Matches(plan, transferId, Commit, m, p) <==> p == preparing)
            && (Matches(plan, transferId, Abort, m, p) <==> p == preparing)
            && (Matches(plan, transferId, Import, m, p) <==> p == moving)
            && Moved(plan, transferId, Prepare, m, resting) == preparing
            && Moved(plan, transferId, Commit, m, preparing) == moving
            && Moved(plan, transferId, Import, m, moving) == landed
            && Moved(plan, transferId, Abort, m, preparing) == resting
  {}

  /** A valid plan leads from one valid cell to a different one of the same universe, both named by
      their ids, under stable names throughout. */
  lemma PlanCrosses(h: Hashes, plan: BundlePlan)
    requires ValidPlan(h, plan)
    ensures var r := plan.material;
            && ValidCellKey(r.sourceKey) && ValidCellKey(r.destinationKey) && r.sourceKey != r.destinationKey
            && r.sourceKey.universeId == r.destinationKey.universeId
            && r.sourceId == h.cell(r.sourceKey) && r.destinationId == h.cell(r.destinationKey)
            && ValidStableId(r.rootAggregateId)
            && (forall i | 0 <= i < |r.members| :: ValidStableId(r.members[i].aggregateId))
  {
    hide ValidCellKey, ValidStableId, LexLess;
    var r := plan.material;
    forall i | 0 <= i < |r.members| ensures ValidStableId(r.members[i].aggregateId) {
      assert MemberAdvances(r.members[i]);
    }
  }

  // ---- atomicity over runs ---------------------------------------------------------------

  /** No placement is active under the transfer id. */
  ghost predicate Idle(p: Placements, transferId: string) {
    forall id | id in p :: p[id].activeTransferId != Some(transferId)
  }

  /** Exactly the members are active under the transfer id, all matching one phase. */
  ghost predicate Together(p: Placements, plan: BundlePlan, transferId: string, next: Transition) {
    && (forall id | id in p :: p[id].activeTransferId == Some(transferId) <==> IsMember(plan, id))
    && AllMatch(p, plan, transferId, next)
  }

  /** None of the members, all at the source, or all in transit to the destination. */
  ghost predicate OnePhase(p: Placements, plan: BundlePlan, transferId: string) {
    Idle(p, transferId) || Together(p, plan, transferId, Commit) || Together(p, plan, transferId, Import)
  }

  /** One staging call, installed when it is accepted. */
  datatype Call = Call(plan: BundlePlan, transferId: string, durableRoot: string, transition: Transition)

  ghost predicate Follows(h: Hashes, before: Placements, call: Call, after: Placements) {
    if Accepted(h, before, call.plan, call.transferId, call.durableRoot, call.transition)
    then MovesExactly(before, call.plan, call.transferId, call.transition, after)
    else after == before
  }

  ghost predicate IsRun(h: Hashes, states: seq<Placements>, calls: seq<Call>) {
    |states| == |calls| + 1 && forall i | 0 <= i < |calls| :: Follows(h, states[i], calls[i], states[i + 1])
  }

  /** The transfer record binds its id to one member root, and a root to one plan. */
  lemma RootBindsPlan(h: Hashes, a: BundlePlan, b: BundlePlan)
    requires ValidPlan(h, a) && ValidPlan(h, b) && a.memberRoot == b.memberRoot
    requires forall x, y | h.root(x) == h.root(y) :: x == y
    ensures a == b
  {
    hide ValidStableId, CellsValid;
    assert h.root(a.material) == h.root(b.material);
  }

  lemma OwnCallKeepsPhase(h: Hashes, before: Placements, plan: BundlePlan, transferId: string, durableRoot: string,
      transition: Transition, after: Placements)
    requires Accepted(h, before, plan, transferId, durableRoot, transition)
        && MovesExactly(before, plan, transferId, transition, after)
    ensures match transition
            case Prepare => Together(after, plan, transferId, Commit)
            case Commit => Together(after, plan, transferId, Import)
            case Import => Idle(after, transferId)
            case Abort => Idle(after, transferId)
  {
    hide ValidStableId, ValidHash, ValidPlan;
    forall id | id in after && IsMember(plan, id)
      ensures after[id].activeTransferId == if transition.Prepare? || transition.Commit? then Some(transferId) else None
    {
      var i :| 0 <= i < |plan.Members()| && plan.Members()[i].aggregateId == id;
      assert Matches(plan, transferId, transition, plan.Members()[i], before[id]);
      assert after[id] == Moved(plan, transferId, transition, plan.Members()[i], before[id]);
    }
    forall i | 0 <= i < |plan.Members()|
      ensures transition.Prepare? ==>
          Matches(plan, transferId, Commit, plan.Members()[i], after[plan.Members()[i].aggregateId])
      ensures transition.Commit? ==>
          Matches(plan, transferId, Import, plan.Members()[i], after[plan.Members()[i].aggregateId])
    {
      var id := plan.Members()[i].aggregateId;
      assert Matches(plan, transferId, transition, plan.Members()[i], before[id]);
      assert after[id] == Moved(plan, transferId, transition, plan.Members()[i], before[id]);
    }
  }

  /** A bundle under another transfer id cannot touch a placement active under this one, nor make
      one active under this one. */
  lemma OtherCallLeavesAlone(h: Hashes, before: Placements, transferId: string, call: Call, after: Placements,
      id: string)
    requires call.transferId != transferId && id in before
    requires Accepted(h, before, call.plan, call.transferId, call.durableRoot, call.transition)
    requires MovesExactly(before, call.plan, call.transferId, call.transition, after)
    ensures before[id].activeTransferId == Some(transferId) ==> after[id] == before[id]
    ensures after[id].activeTransferId == Some(transferId) ==> before[id].activeTransferId == Some(transferId)
  {
    hide ValidStableId, ValidHash, ValidPlan;
    if IsMember(call.plan, id) {
      var i :| 0 <= i < |call.plan.Members()| && call.plan.Members()[i].aggregateId == id;
      assert Matches(call.plan, call.transferId, call.transition, call.plan.Members()[i], before[id]);
      assert after[id] == Moved(call.plan, call.transferId, call.transition, call.plan.Members()[i], before[id]);
    }
  }

  lemma OtherCallKeepsPhase(h: Hashes, before: Placements, plan: BundlePlan, transferId: string, call: Call,
      after: Placements)
    requires call.transferId != transferId && OnePhase(before, plan, transferId)
    requires Accepted(h, before, call.plan, call.transferId, call.durableRoot, call.transition)
    requires MovesExactly(before, call.plan, call.transferId, call.transition, after)
    ensures OnePhase(after, plan, transferId)
  {
    forall id | id in before
      ensures before[id].activeTransferId == Some(transferId) ==> after[id] == before[id]
      ensures after[id].activeTransferId == Some(transferId) ==> before[id].activeTransferId == Some(transferId)
    {
      OtherCallLeavesAlone(h, before, transferId, call, after, id);
    }
    assert after.Keys == before.Keys;
    hide Accepted, MovesExactly;
    forall next, i | next in {Commit, Import} && Together(before, plan, transferId, next) && 0 <= i < |plan.Members()|
      ensures after[plan.Members()[i].aggregateId] == before[plan.Members()[i].aggregateId]
    {
      assert IsMember(plan, plan.Members()[i].aggregateId);
    }
  }

  /** In every run of any bundles, the placements active under a transfer id are none or exactly
      its plan's members, all in one phase, as long as the id keeps its durable member root. */
  lemma {:induction false} BundleMovesAsOne(h: Hashes, states: seq<Placements>, calls: seq<Call>, plan: BundlePlan,
      transferId: string)
    requires IsRun(h, states, calls) && ValidPlan(h, plan)
    requires forall x, y | h.root(x) == h.root(y) :: x == y
    requires forall i | 0 <= i < |calls| && calls[i].transferId == transferId :: calls[i].durableRoot == plan.memberRoot
    requires OnePhase(states[0], plan, transferId)
    ensures OnePhase(states[|calls|], plan, transferId)
    decreases |calls|
  {
    hide OnePhase, Accepted, MovesExactly, ValidPlan;
    if calls != [] {
      var n := |calls| - 1;
      BundleMovesAsOne(h, states[..n + 1], calls[..n], plan, transferId);
      assert Follows(h, states[n], calls[n], states[n + 1]);
      OneCall(h, states[n], plan, transferId, calls[n], states[n + 1]);
    }
  }

  lemma OneCall(h: Hashes, before: Placements, plan: BundlePlan, transferId: string, call: Call, after: Placements)
    requires OnePhase(before, plan, transferId) && Follows(h, before, call, after) && ValidPlan(h, plan)
    requires forall x, y | h.root(x) == h.root(y) :: x == y
    requires call.transferId == transferId ==> call.durableRoot == plan.memberRoot
    ensures OnePhase(after, plan, transferId)
  {
    hide ValidPlan, ValidStableId, ValidHash, MovesExactly, AllMatch, NoStrangers, Together, Idle;
    if Accepted(h, before, call.plan, call.transferId, call.durableRoot, call.transition) {
      if call.transferId == transferId {
        RootBindsPlan(h, call.plan, plan);
        OwnCallKeepsPhase(h, before, plan, transferId, call.durableRoot, call.transition, after);
      } else {
        OtherCallKeepsPhase(h, before, plan, transferId, call, after);
      }
    }
  }

  // ---- what the phases undo and complete -------------------------------------------------

  /** Prepare then Abort is the identity on all placements, and the abort is always accepted. */
  lemma PrepareAbortIsIdentity(h: Hashes, before: Placements, plan: BundlePlan, transferId: string, root: string,
      prepared: Placements, after: Placements)
    requires Accepted(h, before, plan, transferId, root, Prepare)
        && MovesExactly(before, plan, transferId, Prepare, prepared)
    requires MovesExactly(prepared, plan, transferId, Abort, after)
    ensures Accepted(h, prepared, plan, transferId, root, Abort)
    ensures after == before
  {
    hide ValidStableId, ValidHash, ValidPlan;
    OwnCallKeepsPhase(h, before, plan, transferId, root, Prepare, prepared);
    forall i | 0 <= i < |plan.Members()|
      ensures Matches(plan, transferId, Abort, plan.Members()[i], prepared[plan.Members()[i].aggregateId])
    {
      assert Matches(plan, transferId, Commit, plan.Members()[i], prepared[plan.Members()[i].aggregateId]);
    }
    forall id | id in before ensures after[id] == before[id] {
      if IsMember(plan, id) {
        var i :| 0 <= i < |plan.Members()| && plan.Members()[i].aggregateId == id;
        assert Matches(plan, transferId, Prepare, plan.Members()[i], before[id]);
        assert prepared[id] == Moved(plan, transferId, Prepare, plan.Members()[i], before[id]);
        assert after[id] == Moved(plan, transferId, Abort, plan.Members()[i], prepared[id]);
      }
    }
  }

  /** Prepare, Commit and Import, each accepted by the one before it, leave every member resident
      at the destination one generation up and every other placement untouched. */
  lemma BundleArrives(h: Hashes, p0: Placements, plan: BundlePlan, transferId: string, root: string, p1: Placements,
      p2: Placements, p3: Placements)
    requires Accepted(h, p0, plan, transferId, root, Prepare) && MovesExactly(p0, plan, transferId, Prepare, p1)
    requires MovesExactly(p1, plan, transferId, Commit, p2) && MovesExactly(p2, plan, transferId, Import, p3)
    ensures Accepted(h, p1, plan, transferId, root, Commit) && Accepted(h, p2, plan, transferId, root, Import)
    ensures p3.Keys == p0.Keys
    ensures forall id | id in p0 && !IsMember(plan, id) :: p3[id] == p0[id]
    ensures forall i | 0 <= i < |plan.Members()| ::
              var id := plan.Members()[i].aggregateId;
              p3[id] == p0[id].(cellKey := plan.material.destinationKey, cellId := plan.material.destinationId,
                                placementGeneration := p0[id].placementGeneration + 1)
  {
    hide ValidStableId, ValidHash, ValidPlan;
    OwnCallKeepsPhase(h, p0, plan, transferId, root, Prepare, p1);
    OwnCallKeepsPhase(h, p1, plan, transferId, root, Commit, p2);
    forall i | 0 <= i < |plan.Members()|
      ensures var id := plan.Members()[i].aggregateId;
              p0[id].placementGeneration + 1 == plan.Members()[i].resulting
              && p3[id] == p0[id].(cellKey := plan.material.destinationKey, cellId := plan.material.destinationId,
                                   placementGeneration := plan.Members()[i].resulting)
    {
      var id := plan.Members()[i].aggregateId;
      assert Matches(plan, transferId, Prepare, plan.Members()[i], p0[id]);
      assert p1[id] == Moved(plan, transferId, Prepare, plan.Members()[i], p0[id]);
      assert p2[id] == Moved(plan, transferId, Commit, plan.Members()[i], p1[id]);
      assert p3[id] == Moved(plan, transferId, Import, plan.Members()[i], p2[id]);
      MemberStep(h, plan, i);
    }
  }

  lemma MemberStep(h: Hashes, plan: BundlePlan, i: nat)
    requires ValidPlan(h, plan) && i < |plan.Members()|
    ensures plan.Members()[i].prior + 1 == plan.Members()[i].resulting
  {
    hide ValidStableId, CellsValid, LexLess;
    assert MemberAdvances(plan.material.members[i]);
  }

  // ---- one member: the single-transfer steps ---------------------------------------------

  /** A bundle of the grid alone, for this transfer. */
  ghost predicate RootOnly(plan: BundlePlan, t: CellTransferRecord) {
    var r := plan.material;
    && r.sourceKey == t.sourceCellKey && r.sourceId == t.sourceCellId
    && r.destinationKey == t.destinationCellKey && r.destinationId == t.destinationCellId
    && r.members == [Member(t.aggregateId, t.aggregateKind, t.priorPlacementGeneration, t.resultingPlacementGeneration)]
  }

  /** With one member, the bundle edits one placement. */
  lemma OneMemberMoves(before: Placements, plan: BundlePlan, transferId: string, transition: Transition, m: Member,
      after: Placements)
    requires plan.Members() == [m] && MovesExactly(before, plan, transferId, transition, after)
    ensures m.aggregateId in before
    ensures after == before[m.aggregateId := Moved(plan, transferId, transition, m, before[m.aggregateId])]
  {
    hide Moved;
    assert plan.Members()[0] == m;
    assert forall id | id in before && id != m.aggregateId :: !IsMember(plan, id);
  }

  /** The four single-transfer steps that move a placement. */
  function SingleStep(hash: CellHash, d: Document, id: string, t: CellTransferRecord, transition: Transition,
      proof: ImportProof): CellDirectory.Plan<CellTransferRecord> {
    match transition
    case Prepare => PreparePlan(hash, d, t.aggregateId, t.priorPlacementGeneration, id, t.destinationCellKey,
      t.packageHash)
    case Commit => CommitPlan(hash, d, id, t.priorPlacementGeneration)
    case Import => ImportPlan(hash, d, id, proof)
    case Abort => FinalizeAbortPlan(d, id)
  }

  /** A bundle of the root alone does to the placements exactly what the single-transfer step
      does, and is accepted whenever that step is. */
  lemma RootOnlyAgrees(h: Hashes, s: Setting, d: Document, id: string, t: CellTransferRecord, transition: Transition,
      proof: ImportProof, plan: BundlePlan, root: string, after: Placements)
    requires s.hash == h.cell && ValidSetting(s) && Inv(s, d)
    requires SingleStep(h.cell, d, id, t, transition, proof).Install?
    requires transition.Prepare? ==> SingleStep(h.cell, d, id, t, transition, proof).record == t
    requires !transition.Prepare? ==> id in d.transfers && d.transfers[id] == t
    requires ValidPlan(h, plan) && RootOnly(plan, t) && ValidStableId(id) && ValidHash(root) && root == plan.memberRoot
    ensures Accepted(h, d.placements, plan, id, root, transition)
    ensures MovesExactly(d.placements, plan, id, transition, after) ==>
        after == SingleStep(h.cell, d, id, t, transition, proof).next.placements
  {
    hide Inv, ValidSetting, ValidPlan, ValidStableId, ValidHash, MovesExactly, AllMatch, NoStrangers, SingleStep;
    var m := Member(t.aggregateId, t.aggregateKind, t.priorPlacementGeneration, t.resultingPlacementGeneration);
    SingleStepMatches(h, s, d, id, t, transition, proof, plan);
    assert NoStrangers(d.placements, plan, id) by { OnlyOwnPlacement(s, d, id, t, plan); }
    assert AllMatch(d.placements, plan, id, transition) by {
      hide Matches;
      assert plan.Members() == [m];
      AllOfOne(d.placements, plan, id, transition, m);
    }
    if MovesExactly(d.placements, plan, id, transition, after) {
      OneMemberMoves(d.placements, plan, id, transition, m, after);
    }
  }

  lemma AllOfOne(placements: Placements, plan: BundlePlan, id: string, transition: Transition, m: Member)
    requires plan.Members() == [m] && m.aggregateId in placements
        && Matches(plan, id, transition, m, placements[m.aggregateId])
    ensures AllMatch(placements, plan, id, transition)
  {
    hide Matches;
  }

  lemma OnlyOwnPlacement(s: Setting, d: Document, id: string, t: CellTransferRecord, plan: BundlePlan)
    requires Inv(s, d)
        && plan.Members()
        == [Member(t.aggregateId, t.aggregateKind, t.priorPlacementGeneration, t.resultingPlacementGeneration)]
    requires id in d.transfers ==> d.transfers[id] == t
    ensures NoStrangers(d.placements, plan, id)
  {
    hide Inv, ConsistentTransfer, ValidPlacement, ValidAssignment, Chain;
    InvParts(s, d);
    assert plan.Members()[0].aggregateId == t.aggregateId;
  }

  /** The single member matches the transition's phase and is edited as the bundle edits it. */
  ghost predicate EditsAs(d: Document, plan: BundlePlan, id: string, t: CellTransferRecord, transition: Transition,
      next: Document) {
    var m := Member(t.aggregateId, t.aggregateKind, t.priorPlacementGeneration, t.resultingPlacementGeneration);
    && t.aggregateId in d.placements
    && Matches(plan, id, transition, m, d.placements[t.aggregateId])
    && next.placements == d.placements[t.aggregateId := Moved(plan, id, transition, m, d.placements[t.aggregateId])]
  }

  lemma CellOf(s: Setting, d: Document, a: string)
    requires Inv(s, d) && a in d.placements
    ensures d.placements[a].aggregateId == a && d.placements[a].cellId in d.assignments
    ensures d.assignments[d.placements[a].cellId].cellKey == d.placements[a].cellKey
  {
    hide Inv, ValidPlacement, ConsistentTransfer, ValidAssignment, Chain;
    InvParts(s, d);
    CellKnown(d, a);
  }

  lemma PrepareEditsAs(s: Setting, d: Document, id: string, t: CellTransferRecord, plan: BundlePlan)
    requires ValidSetting(s) && Inv(s, d) && RootOnly(plan, t)
    requires PreparePlan(s.hash, d, t.aggregateId, t.priorPlacementGeneration, id, t.destinationCellKey,
        t.packageHash).Install?
    requires PreparePlan(s.hash, d, t.aggregateId, t.priorPlacementGeneration, id, t.destinationCellKey,
        t.packageHash).record == t
    ensures id !in d.transfers
    ensures EditsAs(d, plan, id, t, Prepare,
        PreparePlan(s.hash, d, t.aggregateId, t.priorPlacementGeneration, id, t.destinationCellKey, t.packageHash).next)
  {
    hide Inv, ValidSetting, ValidStableId, ValidHash, AssignmentOf;
    CellOf(s, d, t.aggregateId);
  }

  lemma CommitEditsAs(s: Setting, d: Document, id: string, plan: BundlePlan)
    requires id in d.transfers && RootOnly(plan, d.transfers[id])
    requires ValidSetting(s) && Inv(s, d)
        && CommitPlan(s.hash, d, id, d.transfers[id].priorPlacementGeneration).Install?
    ensures EditsAs(d, plan, id, d.transfers[id], Commit,
        CommitPlan(s.hash, d, id, d.transfers[id].priorPlacementGeneration).next)
  {
    hide Inv, ValidSetting, ValidStableId, ValidHash, AssignmentOf, ResolveGeneration, ImportProofBinds,
        HistoricalAuthority, ConsistentTransfer, ValidAssignment, Chain;
    TransferStart(s, d, id);
    TransferFacts(d, id, d.transfers[id]);
    CellOf(s, d, d.transfers[id].aggregateId);
  }

  lemma ImportEditsAs(s: Setting, d: Document, id: string, proof: ImportProof, plan: BundlePlan)
    requires id in d.transfers && RootOnly(plan, d.transfers[id])
    requires ValidSetting(s) && Inv(s, d) && ImportPlan(s.hash, d, id, proof).Install?
    ensures EditsAs(d, plan, id, d.transfers[id], Import, ImportPlan(s.hash, d, id, proof).next)
  {
    hide Inv, ValidSetting, ValidStableId, ValidHash, AssignmentOf, ResolveGeneration, ImportProofBinds,
        HistoricalAuthority, ConsistentTransfer, ValidAssignment, Chain;
    TransferStart(s, d, id);
    TransferFacts(d, id, d.transfers[id]);
    CellOf(s, d, d.transfers[id].aggregateId);
  }

  lemma AbortEditsAs(s: Setting, d: Document, id: string, plan: BundlePlan)
    requires id in d.transfers && RootOnly(plan, d.transfers[id])
    requires ValidSetting(s) && Inv(s, d) && FinalizeAbortPlan(d, id).Install?
    ensures EditsAs(d, plan, id, d.transfers[id], Abort, FinalizeAbortPlan(d, id).next)
  {
    hide Inv, ValidSetting, ValidStableId, ValidHash, AssignmentOf, ResolveGeneration, ImportProofBinds,
        HistoricalAuthority, ConsistentTransfer, ValidAssignment, Chain;
    TransferStart(s, d, id);
    TransferFacts(d, id, d.transfers[id]);
    CellOf(s, d, d.transfers[id].aggregateId);
  }

  lemma SingleStepMatches(h: Hashes, s: Setting, d: Document, id: string, t: CellTransferRecord,
      transition: Transition, proof: ImportProof, plan: BundlePlan)
    requires s.hash == h.cell && ValidSetting(s) && Inv(s, d) && RootOnly(plan, t)
    requires SingleStep(h.cell, d, id, t, transition, proof).Install?
    requires transition.Prepare? ==> SingleStep(h.cell, d, id, t, transition, proof).record == t
    requires !transition.Prepare? ==> id in d.transfers && d.transfers[id] == t
    ensures transition.Prepare? ==> id !in d.transfers
    ensures EditsAs(d, plan, id, t, transition, SingleStep(h.cell, d, id, t, transition, proof).next)
  {
    hide Inv, ValidSetting, RootOnly, EditsAs, PreparePlan, CommitPlan, ImportPlan, FinalizeAbortPlan;
    match transition {
      case Prepare => PrepareEditsAs(s, d, id, t, plan);
      case Commit => CommitEditsAs(s, d, id, plan);
      case Import => ImportEditsAs(s, d, id, proof, plan);
      case Abort => AbortEditsAs(s, d, id, plan);
    }
  }
}
