/** The decision on a whole frame: the table of its conditions, the view it leads to field by field,
    and the seal of its hash. */
module InterestDecisions {
  import opened Prelude
  import opened Order
  import opened InterestModel
  import opened EntityDelta
  import opened PrivateLinkage
  import opened InterestFrames
  import opened InterestAcceptance
  import A = Address

  // ---- the seal --------------------------------------------------------------------------

  /** A view is accepted under the hash the frame carries, and no other, if that is the hash of
      everything in it but the event sequence and the tick. */
  function Sealed(trust: Trust, v: View, wire: string): Result<View, ErrorCode> {
    var digest := trust.hashView(HashMaterial(
      v.contentManifestVersion, v.universeId, v.cellId, v.universeManifestHash, v.registryHash, v.cellAddress,
      v.localOrigin, v.gravityBodyId, v.voxelBodyId, v.observerClass, v.sessionEpoch, v.interestEpoch, v.baselineId,
      v.deltaSequence, v.transferLink, v.entities, v.environment, v.conservationValid, v.actorPrivate));
    if digest.Err? then Err(digest.error)
    else if digest.value == wire && ValidHash(wire) then Ok(v.(viewHash := wire))
    else Err(HashMismatch)
  }

  lemma SealIs(trust: Trust, v: View, wire: string)
    ensures Hashed(trust, v, wire) == Sealed(trust, v, wire)
  {
    hide ValidHash;
  }

  function Decided(outcome: Outcome, sealed: Result<View, ErrorCode>): Result<View, ErrorCode> {
    if outcome.Fail? then Err(outcome.error) else sealed
  }

  // ---- a delta ---------------------------------------------------------------------------

  /** The delta is the next one on exactly this view: the same session, epoch, baseline, observer and
      cell, the hash of the view as its predecessor, and a clock that does not fall back. */
  predicate Continues(current: View, i: Interest) {
    && i.sessionEpoch == current.sessionEpoch && i.interestEpoch == current.interestEpoch
    && i.baselineId == current.baselineId && i.deltaSequence == current.deltaSequence + 1
    && i.previousViewHash == Some(current.viewHash)
    && i.observerClass == current.observerClass && i.cellAddress == current.cellAddress
    && current.eventSequence <= i.eventSequence && current.tick <= i.tick
  }

  lemma FrontierIs(current: View, i: Interest)
    ensures FrontierOutcome(current, i) == Require(Continues(current, i), FrontierMismatch)
  {}

  predicate SamePlace(current: View, o: Outer) {
    o.cellId == current.cellId && o.gravityBodyId == current.gravityBodyId && o.voxelBodyId == current.voxelBodyId
  }

  function DeltaBindings(w: WelcomeBinding, r: Registry, d: Delta): seq<Outcome> {
    OuterChecks(w, r, d.outer)
    + [Require(OptionalKnown(r, d.environment), BindingMismatch)]
    + InterestChecks(r, d.interest, DeltaFrame)
    + [Require(HeadersRepeat(d.outer, d.interest), BindingMismatch),
       Require(RoleKept(w.role, d.interest.observerClass, d.actorPrivate, d.actorPrivateMotion), BindingMismatch)]
  }

  function DeltaFrontier(current: View, d: Delta): seq<Outcome> {
    [Require(Continues(current, d.interest), FrontierMismatch),
     Require(d.interest.transferLink == None, InvalidDelta)]
    + [Require(SamePlace(current, d.outer), InvalidDelta),
       Require(d.actorPrivate == None || d.actorPrivateMotion == None, InvalidDelta)]
  }

  ghost function DeltaVectors(limits: Limits, r: Registry, d: Delta): seq<Outcome> {
    VectorChecks(d.interest.entered, limits, r) + VectorChecks(d.interest.replaced, limits, r)
    + RemovalChecks(d.interest.removed, limits)
  }

  lemma BindingsAre(w: WelcomeBinding, r: Registry, d: Delta)
    ensures OuterOutcome(w, r, d.outer).And(OptionalEnvironment(r, d.environment))
              .And(HeaderOutcome(r, d.interest, DeltaFrame)).And(RepeatedOutcome(d.outer, d.interest))
              .And(RoleOutcome(w.role, d.interest.observerClass, d.actorPrivate, d.actorPrivateMotion))
            == First(DeltaBindings(w, r, d))
  {
    OuterIs(w, r, d.outer);
    OptionalEnvironmentIs(r, d.environment);
    InterestIs(r, d.interest, DeltaFrame);
    RoleIs(w.role, d.interest.observerClass, d.actorPrivate, d.actorPrivateMotion);
    hide First, OuterChecks, InterestChecks, OptionalKnown, RoleKept, OuterOutcome, HeaderOutcome, OptionalEnvironment,
      RoleOutcome;
    var a, b, c := OuterChecks(w, r, d.outer), [Require(OptionalKnown(r, d.environment), BindingMismatch)],
        InterestChecks(r, d.interest, DeltaFrame);
    var e := [Require(HeadersRepeat(d.outer, d.interest), BindingMismatch),
      Require(RoleKept(w.role, d.interest.observerClass, d.actorPrivate, d.actorPrivateMotion), BindingMismatch)];
    FirstOf1(b[0]);
    FirstOf2(e[0], e[1]);
    FirstAppended(a, b);
    FirstAppended(a + b, c);
    FirstAppended(a + b + c, e);
  }

  lemma FrontiersAre(current: View, d: Delta)
    ensures FrontierOutcome(current, d.interest)
              .And(Require(d.interest.transferLink.None?, InvalidDelta))
              .And(Require(d.outer.cellId == current.cellId && d.outer.gravityBodyId == current.gravityBodyId
                           && d.outer.voxelBodyId == current.voxelBodyId, InvalidDelta))
              .And(Require(d.actorPrivate.None? || d.actorPrivateMotion.None?, InvalidDelta))
            == First(DeltaFrontier(current, d))
  {
    FrontierIs(current, d.interest);
    hide First, FrontierOutcome, Continues;
    var a := [Require(Continues(current, d.interest), FrontierMismatch),
      Require(d.interest.transferLink == None, InvalidDelta)];
    var b := [Require(SamePlace(current, d.outer), InvalidDelta),
      Require(d.actorPrivate == None || d.actorPrivateMotion == None, InvalidDelta)];
    FirstOf2(a[0], a[1]);
    FirstOf2(b[0], b[1]);
    FirstAppended(a, b);
  }

  lemma VectorsAre(limits: Limits, r: Registry, d: Delta)
    ensures VectorOutcome(d.interest.entered, limits, r).And(VectorOutcome(d.interest.replaced, limits, r))
              .And(RemovalsOutcome(d.interest.removed, limits))
            == First(DeltaVectors(limits, r, d))
  {
    hide First, VectorChecks, RemovalChecks, VectorOutcome, RemovalsOutcome;
    VectorIs(d.interest.entered, limits, r);
    VectorIs(d.interest.replaced, limits, r);
    RemovalsAre(d.interest.removed, limits);
    FirstAppended(VectorChecks(d.interest.entered, limits, r), VectorChecks(d.interest.replaced, limits, r));
    FirstAppended(VectorChecks(d.interest.entered, limits, r) + VectorChecks(d.interest.replaced, limits, r),
      RemovalChecks(d.interest.removed, limits));
  }

  lemma DeltaHeadersAre(limits: Limits, w: WelcomeBinding, r: Registry, current: View, d: Delta)
    ensures DeltaHeaders(limits, w, r, current, d)
        == First(DeltaBindings(w, r, d) + DeltaFrontier(current, d) + DeltaVectors(limits, r, d))
  {
    BindingsAre(w, r, d);
    FrontiersAre(current, d);
    VectorsAre(limits, r, d);
    hide First, DeltaBindings, DeltaFrontier, DeltaVectors, OuterOutcome, HeaderOutcome, OptionalEnvironment,
      RoleOutcome, FrontierOutcome, VectorOutcome, RemovalsOutcome, RepeatedOutcome;
    FirstAppended(DeltaBindings(w, r, d), DeltaFrontier(current, d));
    FirstAppended(DeltaBindings(w, r, d) + DeltaFrontier(current, d), DeltaVectors(limits, r, d));
  }

  /** The private overlay after a delta: sent whole, moved, or kept. */
  function NextPrivate(current: Option<ActorPrivate>, d: Delta): Option<ActorPrivate> {
    match (d.actorPrivate, d.actorPrivateMotion, current)
    case (Some(overlay), _, _) => Some(overlay)
    case (None, Some(motion), Some(held)) =>
      Some(ActorPrivate(
        PrivatePlayer(held.player.playerId, motion.address, held.player.inventoryId, motion.environment, motion.motion,
          held.player.rest),
        held.operationSequence, held.inventories, held.deathDrops, held.ownedGridMasses, held.productionQueues))
    case (None, Some(_), None) => None
    case (None, None, kept) => kept
  }

  ghost function PrivateChecks(current: Option<ActorPrivate>, d: Delta, limits: Limits, r: Registry): seq<Outcome> {
    if d.actorPrivate.Some? then OverlayChecks(d.actorPrivate.value, limits, r)
    else if d.actorPrivateMotion.Some? then
      var motion := d.actorPrivateMotion.value;
      [Placed(r, motion.address), Require(OptionalKnown(r, motion.environment), BindingMismatch),
       Require(current.Some? && current.value.player.playerId == motion.playerId, InvalidDelta)]
    else []
  }

  lemma PrivateIs(current: Option<ActorPrivate>, d: Delta, limits: Limits, r: Registry)
    ensures UpdatedPrivate(current, d, limits, r)
        == var outcome := First(PrivateChecks(current, d, limits, r));
           if outcome.Fail? then Err(outcome.error) else Ok(NextPrivate(current, d))
  {
    hide First, OverlayChecks, A.ValidIn, OptionalKnown, OptionalEnvironment, ActorPrivateOutcome;
    FirstOfNone();
    if d.actorPrivate.Some? {
      OverlayIs(d.actorPrivate.value, limits, r);
    } else if d.actorPrivateMotion.Some? {
      var motion := d.actorPrivateMotion.value;
      OptionalEnvironmentIs(r, motion.environment);
      FirstOf3(Placed(r, motion.address), Require(OptionalKnown(r, motion.environment), BindingMismatch),
        Require(current.Some? && current.value.player.playerId == motion.playerId, InvalidDelta));
    }
  }

  lemma FirstOfNone()
    ensures First([]) == Pass
  {}

  /** A player's overlay is there and refers only to what the view shows; a spectator has none. */
  ghost predicate OverlayLinked(role: Role, private: Option<ActorPrivate>, entities: seq<Entity>) {
    match role
    case Spectator => private == None
    case Player(id) => private.Some? && ReferentialIntegrity(id, private.value, entities)
  }

  lemma LinkageIs(role: Role, private: Option<ActorPrivate>, entities: seq<Entity>)
    requires EntitiesOrdered(entities) && (private.Some? ==> PrivateOrdered(private.value))
    ensures LinkageOutcome(role, private, entities)
        == Require(OverlayLinked(role, private, entities), InvalidPrivateLinkage)
  {
    hide EntitiesOrdered, PrivateOrdered, Links, ReferentialIntegrity;
    if role.Player? && private.Some? { LinkageIsReferentialIntegrity(role.playerId, private.value, entities); }
  }

  ghost function DeltaOperations(limits: Limits, current: View, d: Delta): seq<Outcome> {
    var i := d.interest;
    [Require(Within(|i.entered| + |i.replaced| + |i.removed|, limits.maxEntities), ResourceLimit),
     Require(NamesOnce(i.entered, i.replaced, i.removed), InvalidDelta)]
    + [Require(CarriedOut(current.entities, i.entered, i.replaced, i.removed), InvalidDelta),
       Require(|current.entities| + |i.entered| - |i.removed| <= limits.maxEntities, ResourceLimit)]
  }

  /** Every condition on a delta, in order; `after` is the vector it leads to. */
  ghost function DeltaTable(limits: Limits, w: WelcomeBinding, r: Registry, current: View, d: Delta,
      after: seq<Entity>): seq<Outcome> {
    DeltaBindings(w, r, d) + DeltaFrontier(current, d) + DeltaVectors(limits, r, d)
    + DeltaOperations(limits, current, d)
    + PrivateChecks(current.actorPrivate, d, limits, r)
    + [Require(OverlayLinked(w.role, NextPrivate(current.actorPrivate, d), after), InvalidPrivateLinkage)]
  }

  /** The view a delta leads to, field by field. */
  function NextView(current: View, d: Delta, after: seq<Entity>): View {
    View(current.contentManifestVersion, current.universeId, current.cellId, current.universeManifestHash,
      current.registryHash, current.cellAddress, d.interest.localOrigin, current.gravityBodyId, current.voxelBodyId,
      current.observerClass, current.sessionEpoch, current.interestEpoch, current.baselineId,
      d.interest.deltaSequence, d.interest.eventSequence, d.interest.tick, after,
      if d.environment.Some? then d.environment.value else current.environment,
      if d.conservationValid.Some? then d.conservationValid.value else current.conservationValid,
      NextPrivate(current.actorPrivate, d), None, "")
  }

  /** The operations as the check carries them out. */
  function Carried(limits: Limits, current: View, d: Delta): Result<seq<Entity>, ErrorCode> {
    var i := d.interest;
    :- DisjointOutcome(i.entered, i.replaced, i.removed, limits);
    Applied(current.entities, i.entered, i.replaced, i.removed, limits)
  }

  lemma OperationsAre(limits: Limits, current: View, d: Delta, after: seq<Entity>)
    requires Ascending(KeyLess, Keys(current.entities))
    requires Listing(after, Algebra(ByKey(current.entities), d.interest.entered, d.interest.replaced,
        d.interest.removed))
    ensures Carried(limits, current, d)
        == var outcome := First(DeltaOperations(limits, current, d));
           if outcome.Fail? then Err(outcome.error) else Ok(after)
  {
    var i := d.interest;
    var c := DeltaOperations(limits, current, d);
    DisjointIs(limits, d);
    assert First(c) == First([c[0], c[1]]).And(First([c[2], c[3]])) by {
      hide First, NamesOnce, CarriedOut;
      FirstAppended([c[0], c[1]], [c[2], c[3]]);
      assert c == [c[0], c[1]] + [c[2], c[3]];
    }
    hide First, NamesOnce, CarriedOut, Ascending, Listing, Algebra, Distinct, Operations, Applied, ByKey, Keys, KeyLess,
      DisjointOutcome, Within;
    if Distinct(Operations(i.entered, i.replaced, i.removed)) {
      AppliedIs(limits, current, d, after);
    }
  }

  lemma DisjointIs(limits: Limits, d: Delta)
    ensures var i := d.interest;
            var outcome := DisjointOutcome(i.entered, i.replaced, i.removed, limits);
            && outcome == First([Require(Within(|i.entered| + |i.replaced| + |i.removed|, limits.maxEntities),
                 ResourceLimit), Require(NamesOnce(i.entered, i.replaced, i.removed), InvalidDelta)])
            && (outcome.Pass? ==> Distinct(Operations(i.entered, i.replaced, i.removed)))
  {
    var i := d.interest;
    NamesOnceIs(i.entered, i.replaced, i.removed);
    hide First, NamesOnce, Distinct, Operations;
    FirstOf2(Require(Within(|i.entered| + |i.replaced| + |i.removed|, limits.maxEntities), ResourceLimit),
      Require(NamesOnce(i.entered, i.replaced, i.removed), InvalidDelta));
  }

  lemma AppliedIs(limits: Limits, current: View, d: Delta, after: seq<Entity>)
    requires Ascending(KeyLess, Keys(current.entities))
    requires Distinct(Operations(d.interest.entered, d.interest.replaced, d.interest.removed))
    requires Listing(after, Algebra(ByKey(current.entities), d.interest.entered, d.interest.replaced,
        d.interest.removed))
    ensures var i := d.interest;
            var outcome := First([Require(CarriedOut(current.entities, i.entered, i.replaced, i.removed), InvalidDelta),
              Require(|current.entities| + |i.entered| - |i.removed| <= limits.maxEntities, ResourceLimit)]);
            Applied(current.entities, i.entered, i.replaced, i.removed, limits)
              == if outcome.Fail? then Err(outcome.error) else Ok(after)
  {
    var i := d.interest;
    CarriedOutIs(current.entities, i.entered, i.replaced, i.removed);
    AfterIs(current, d, after);
    if Applicable(ByKey(current.entities), i.entered, i.replaced, i.removed) {
      SizeAfter(current.entities, i.entered, i.replaced, i.removed);
    }
    hide First, CarriedOut, Ascending, Listing, Algebra, Final, Values, Distinct, Operations, Applicable, ByKey, Keys,
      KeyLess;
    FirstOf2(Require(CarriedOut(current.entities, i.entered, i.replaced, i.removed), InvalidDelta),
      Require(|current.entities| + |i.entered| - |i.removed| <= limits.maxEntities, ResourceLimit));
  }

  lemma AfterIs(current: View, d: Delta, after: seq<Entity>)
    requires Listing(after, Algebra(ByKey(current.entities), d.interest.entered, d.interest.replaced,
        d.interest.removed))
    ensures after == Values(Final(current.entities, d.interest.entered, d.interest.replaced, d.interest.removed))
  {
    hide *;
    var i := d.interest;
    FinalLists(current.entities, i.entered, i.replaced, i.removed);
    ListingUnique(after, Values(Final(current.entities, i.entered, i.replaced, i.removed)),
      Algebra(ByKey(current.entities), i.entered, i.replaced, i.removed));
  }

  /** What the checks before the linkage leave in order. */
  lemma OrderedAfter(trust: Trust, limits: Limits, w: WelcomeBinding, r: Registry, current: View, d: Delta,
      after: seq<Entity>)
    requires ViewHolds(trust, limits, w.role, current)
    requires DeltaHeaders(limits, w, r, current, d).Pass?
    requires Carried(limits, current, d) == Ok(after)
    requires UpdatedPrivate(current.actorPrivate, d, limits, r).Ok?
    ensures EntitiesOrdered(after)
    ensures var private := UpdatedPrivate(current.actorPrivate, d, limits, r).value;
            private.Some? ==> PrivateOrdered(private.value)
  {
    var i := d.interest;
    DeltaChecked(trust, limits, w, r, current, d);
    hide DeltaHeaders, DisjointOutcome, LinkageOutcome, ValidHash, EntitiesOrdered, PrivateOrdered, VectorOutcome,
      UpdatedPrivate, FrontierOutcome, Applied;
    VectorOrdered(i.entered, limits, r);
    VectorOrdered(i.replaced, limits, r);
    AppliedMatches(current.entities, i.entered, i.replaced, i.removed, limits);
    UpdatedPrivateOrdered(current.actorPrivate, d, limits, r);
  }

  lemma DeltaViewIs(current: View, d: Delta, after: seq<Entity>)
    ensures DeltaView(current, d, after, NextPrivate(current.actorPrivate, d)) == NextView(current, d, after)
  {}

  /** The steps of the validation, with the vector and the overlay they lead to. */
  lemma DeltaSteps(trust: Trust, limits: Limits, w: WelcomeBinding, r: Registry, current: View, d: Delta)
    ensures ValidatedDelta(trust, limits, w, r, current, d)
        == var headers := DeltaHeaders(limits, w, r, current, d);
           var carried, private := Carried(limits, current, d), UpdatedPrivate(current.actorPrivate, d, limits, r);
           if headers.Fail? then Err(headers.error)
           else if carried.Err? then Err(carried.error)
           else if private.Err? then Err(private.error)
           else
             Decided(LinkageOutcome(w.role, private.value, carried.value),
               Hashed(trust, DeltaView(current, d, carried.value, private.value), d.interest.viewHash))
  {
    hide DeltaHeaders, DisjointOutcome, Applied, UpdatedPrivate, LinkageOutcome, Hashed, DeltaView;
  }

  /** The first broken condition of the table decides; if none is broken, the sealed next view. */
  lemma DeltaDecided(trust: Trust, limits: Limits, w: WelcomeBinding, r: Registry, current: View, d: Delta,
      after: seq<Entity>)
    requires ViewHolds(trust, limits, w.role, current)
    requires Listing(after, Algebra(ByKey(current.entities), d.interest.entered, d.interest.replaced,
        d.interest.removed))
    ensures ValidatedDelta(trust, limits, w, r, current, d)
        == Decided(First(DeltaTable(limits, w, r, current, d, after)),
             Sealed(trust, NextView(current, d, after), d.interest.viewHash))
  {
    assert Ascending(KeyLess, Keys(current.entities)) by { hide Ascending, KeyLess, Keys, LinkageOutcome; }
    hide *;
    DeltaSteps(trust, limits, w, r, current, d);
    DeltaHeadersAre(limits, w, r, current, d);
    OperationsAre(limits, current, d, after);
    PrivateIs(current.actorPrivate, d, limits, r);
    DeltaViewIs(current, d, after);
    SealIs(trust, NextView(current, d, after), d.interest.viewHash);
    if DeltaHeaders(limits, w, r, current, d).Pass? && Carried(limits, current, d) == Ok(after)
      && UpdatedPrivate(current.actorPrivate, d, limits, r).Ok? {
      OrderedAfter(trust, limits, w, r, current, d, after);
      LinkageIs(w.role, NextPrivate(current.actorPrivate, d), after);
    }
    TableSplits(limits, w, r, current, d, after);
    DecisionSplits(First(DeltaBindings(w, r, d) + DeltaFrontier(current, d) + DeltaVectors(limits, r, d)),
      First(DeltaOperations(limits, current, d)), First(PrivateChecks(current.actorPrivate, d, limits, r)),
      Require(OverlayLinked(w.role, NextPrivate(current.actorPrivate, d), after), InvalidPrivateLinkage),
      Sealed(trust, NextView(current, d, after), d.interest.viewHash));
  }

  lemma TableSplits(limits: Limits, w: WelcomeBinding, r: Registry, current: View, d: Delta, after: seq<Entity>)
    ensures First(DeltaTable(limits, w, r, current, d, after))
        == First(DeltaBindings(w, r, d) + DeltaFrontier(current, d) + DeltaVectors(limits, r, d))
           .And(First(DeltaOperations(limits, current, d)))
           .And(First(PrivateChecks(current.actorPrivate, d, limits, r)))
           .And(Require(OverlayLinked(w.role, NextPrivate(current.actorPrivate, d), after), InvalidPrivateLinkage))
  {
    hide First, DeltaBindings, DeltaFrontier, DeltaVectors, DeltaOperations, PrivateChecks, OverlayLinked;
    var a := DeltaBindings(w, r, d) + DeltaFrontier(current, d) + DeltaVectors(limits, r, d);
    var b, c := DeltaOperations(limits, current, d), PrivateChecks(current.actorPrivate, d, limits, r);
    var e := Require(OverlayLinked(w.role, NextPrivate(current.actorPrivate, d), after), InvalidPrivateLinkage);
    FirstOf1(e);
    FirstAppended(a, b);
    FirstAppended(a + b, c);
    FirstAppended(a + b + c, [e]);
  }

  lemma DecisionSplits(a: Outcome, b: Outcome, c: Outcome, e: Outcome, sealed: Result<View, ErrorCode>)
    ensures Decided(a.And(b).And(c).And(e), sealed)
        == if a.Fail? then Err(a.error) else if b.Fail? then Err(b.error) else if c.Fail? then Err(c.error)
           else Decided(e, sealed)
  {}

  /** A delta that is not the next one on exactly this view, in particular one that does not name its
      hash, is refused for its frontier as soon as its bindings hold. */
  lemma OffFrontierRefused(trust: Trust, limits: Limits, w: WelcomeBinding, r: Registry, current: View, d: Delta)
    requires First(DeltaBindings(w, r, d)).Pass? && !Continues(current, d.interest)
    ensures ValidatedDelta(trust, limits, w, r, current, d) == Err(FrontierMismatch)
  {
    hide *;
    DeltaSteps(trust, limits, w, r, current, d);
    DeltaHeadersAre(limits, w, r, current, d);
    FirstAppended(DeltaBindings(w, r, d), DeltaFrontier(current, d));
    FirstAppended(DeltaBindings(w, r, d) + DeltaFrontier(current, d), DeltaVectors(limits, r, d));
    FrontierFails(current, d);
    FirstOutcomes(First(DeltaBindings(w, r, d)), First(DeltaFrontier(current, d)), First(DeltaVectors(limits, r, d)));
  }

  lemma FrontierFails(current: View, d: Delta)
    requires !Continues(current, d.interest)
    ensures First(DeltaFrontier(current, d)) == Fail(FrontierMismatch)
  {
    hide Continues;
    assert DeltaFrontier(current, d)[0] == Fail(FrontierMismatch);
  }

  lemma FirstOutcomes(a: Outcome, b: Outcome, c: Outcome)
    requires a.Pass?
    ensures a.And(b).And(c) == b.And(c) && (b.Fail? ==> a.And(b).And(c) == b)
  {}

  /** What an accepted delta satisfies: it speaks for this session, registry and universe, continues
      exactly this view under its hash, and leads to exactly the next view. */
  lemma AcceptedDelta(trust: Trust, limits: Limits, w: WelcomeBinding, r: Registry, current: View, d: Delta,
      after: seq<Entity>)
    requires ViewHolds(trust, limits, w.role, current)
    requires Listing(after, Algebra(ByKey(current.entities), d.interest.entered, d.interest.replaced,
        d.interest.removed))
    requires ValidatedDelta(trust, limits, w, r, current, d).Ok?
    ensures SpeaksFor(w, r, d.outer) && InterestSpeaksFor(r, d.interest, DeltaFrame)
        && HeadersRepeat(d.outer, d.interest)
    ensures RoleKept(w.role, d.interest.observerClass, d.actorPrivate, d.actorPrivateMotion)
    ensures Continues(current, d.interest) && SamePlace(current, d.outer)
    ensures ValidatedDelta(trust, limits, w, r, current, d).value
        == NextView(current, d, after).(viewHash := d.interest.viewHash)
  {
    hide *;
    DeltaDecided(trust, limits, w, r, current, d, after);
    TableSplits(limits, w, r, current, d, after);
    FirstAppended(DeltaBindings(w, r, d), DeltaFrontier(current, d));
    FirstAppended(DeltaBindings(w, r, d) + DeltaFrontier(current, d), DeltaVectors(limits, r, d));
    DecidedOk(First(DeltaTable(limits, w, r, current, d, after)),
      Sealed(trust, NextView(current, d, after), d.interest.viewHash));
    AllPass(First(DeltaBindings(w, r, d)), First(DeltaFrontier(current, d)), First(DeltaVectors(limits, r, d)),
      First(DeltaOperations(limits, current, d)), First(PrivateChecks(current.actorPrivate, d, limits, r)),
      Require(OverlayLinked(w.role, NextPrivate(current.actorPrivate, d), after), InvalidPrivateLinkage));
    BindingsHold(w, r, d);
    FrontierHolds(current, d);
    SealedIs(trust, NextView(current, d, after), d.interest.viewHash);
  }

  lemma DecidedOk(outcome: Outcome, sealed: Result<View, ErrorCode>)
    requires Decided(outcome, sealed).Ok?
    ensures outcome.Pass? && sealed.Ok? && Decided(outcome, sealed) == sealed
  {}

  lemma AllPass(a: Outcome, b: Outcome, c: Outcome, e: Outcome, f: Outcome, g: Outcome)
    requires a.And(b).And(c).And(e).And(f).And(g).Pass?
    ensures a.Pass? && b.Pass? && c.Pass? && e.Pass? && f.Pass? && g.Pass?
  {}

  lemma SealedIs(trust: Trust, v: View, wire: string)
    requires Sealed(trust, v, wire).Ok?
    ensures Sealed(trust, v, wire).value == v.(viewHash := wire)
  {
    hide ValidHash;
  }

  lemma BindingsHold(w: WelcomeBinding, r: Registry, d: Delta)
    requires First(DeltaBindings(w, r, d)).Pass?
    ensures SpeaksFor(w, r, d.outer) && InterestSpeaksFor(r, d.interest, DeltaFrame)
        && HeadersRepeat(d.outer, d.interest)
    ensures RoleKept(w.role, d.interest.observerClass, d.actorPrivate, d.actorPrivateMotion)
  {
    FirstPasses(DeltaBindings(w, r, d));
    var c := DeltaBindings(w, r, d);
    hide First, SpeaksFor, InterestSpeaksFor, HeadersRepeat, RoleKept, A.ValidIn, OptionalKnown, BodiesKnown;
    assert c[0].Pass? && c[4].Pass? && c[7].Pass? && c[8].Pass?;
  }

  lemma FrontierHolds(current: View, d: Delta)
    requires First(DeltaFrontier(current, d)).Pass?
    ensures Continues(current, d.interest) && SamePlace(current, d.outer)
  {
    FirstPasses(DeltaFrontier(current, d));
    var c := DeltaFrontier(current, d);
    hide First, Continues, SamePlace;
    assert c[0].Pass? && c[2].Pass?;
  }

  // ---- a baseline ------------------------------------------------------------------------

  /** The payloads of one kind, in the order of the entities. */
  function Selected<T>(entities: seq<Entity>, pick: Entity -> Option<T>): seq<T> {
    if entities == [] then []
    else
      var rest := Selected(entities[1..], pick);
      match pick(entities[0])
      case None => rest
      case Some(value) => [value] + rest
  }

  lemma {:induction false} SelectedAppended<T>(entities: seq<Entity>, e: Entity, pick: Entity -> Option<T>)
    ensures Selected(entities + [e], pick)
        == Selected(entities, pick) + (if pick(e).Some? then [pick(e).value] else [])
    decreases |entities|
  {
    if entities == [] {
      assert [e][1..] == [];
    } else {
      assert (entities + [e])[1..] == entities[1..] + [e];
      SelectedAppended(entities[1..], e, pick);
    }
  }

  function PlayerIn(e: Entity): Option<PublicPlayer> {
    match e.payload
    case PlayerPayload(player) => Some(player)
    case _ => None
  }

  function GridIn(e: Entity): Option<PublicGrid> {
    match e.payload
    case GridPayload(grid) => Some(grid)
    case _ => None
  }

  function ChunkIn(e: Entity): Option<PublicVoxelChunk> {
    match e.payload
    case VoxelChunkPayload(chunk) => Some(chunk)
    case _ => None
  }

  function DropIn(e: Entity): Option<PublicDeathDrop> {
    match e.payload
    case DeathDropPayload(drop) => Some(drop)
    case _ => None
  }

  /** The arrays of a baseline are the payloads of its entities. */
  predicate ArraysRepeat(b: Baseline) {
    && b.players == Selected(b.interest.entered, PlayerIn) && b.grids == Selected(b.interest.entered, GridIn)
    && b.voxelChunks == Selected(b.interest.entered, ChunkIn) && b.deathDrops == Selected(b.interest.entered, DropIn)
  }

  lemma {:induction false} PublicAreSelected(entities: seq<Entity>)
    ensures PublicPlayers(entities) == Selected(entities, PlayerIn)
    ensures PublicGrids(entities) == Selected(entities, GridIn)
    ensures PublicChunks(entities) == Selected(entities, ChunkIn)
    ensures PublicDrops(entities) == Selected(entities, DropIn)
    decreases |entities|
  {
    hide Selected;
    if entities == [] {
      NoneSelected(PlayerIn);
      NoneSelected(GridIn);
      NoneSelected(ChunkIn);
      NoneSelected(DropIn);
    } else {
      var init, last := entities[..|entities| - 1], entities[|entities| - 1];
      PublicAreSelected(init);
      assert entities == init + [last];
      SelectedAppended(init, last, PlayerIn);
      SelectedAppended(init, last, GridIn);
      SelectedAppended(init, last, ChunkIn);
      SelectedAppended(init, last, DropIn);
    }
  }

  lemma NoneSelected<T>(pick: Entity -> Option<T>)
    ensures Selected([], pick) == []
  {}

  lemma ArraysAre(b: Baseline)
    ensures ArraysOutcome(b) == Require(ArraysRepeat(b), InvalidBaseline)
  {
    PublicAreSelected(b.interest.entered);
    hide Selected, PublicPlayers, PublicGrids, PublicChunks, PublicDrops;
  }

  /** A baseline starts a delta sequence and enters everything it shows. */
  predicate StartsAfresh(i: Interest) {
    && i.deltaSequence == 0 && i.previousViewHash == None && |i.sessionEpoch| > 0 && |i.baselineId| > 0
    && i.replaced == [] && i.removed == []
  }

  /** The cell id that the trusted digest gives to this key. */
  function NamesCell(trust: Trust, key: A.CellKey, cellId: string): Outcome {
    match trust.cellId(key)
    case Err(error) => Fail(error)
    case Ok(id) => Require(id == cellId, BindingMismatch)
  }

  /** A baseline that ends a handoff names the transfer, and its own cell as the destination. */
  function LinkChecks(trust: Trust, role: Role, r: Registry, o: Outer, i: Interest): seq<Outcome> {
    match i.transferLink
    case None => []
    case Some(link) =>
      var address := A.UniverseAddress(link.destination.universeId, link.destination.sector, link.destination.cell,
          Axes(0, 0, 0));
      [Require(role != Spectator && ValidStableId(link.transferId) && link.placementGeneration > 0
               && link.destination.schemaVersion == 1, InvalidBaseline), Placed(r, address)]
      + [Require(address == i.cellAddress, BindingMismatch), NamesCell(trust, link.destination, o.cellId)]
  }

  lemma LinkIs(trust: Trust, role: Role, r: Registry, o: Outer, i: Interest)
    ensures TransferLinkOutcome(trust, role, r, o, i) == First(LinkChecks(trust, role, r, o, i))
  {
    hide First, ValidStableId, A.ValidIn;
    if i.transferLink.None? {
      FirstOfNone();
    } else {
      var c := LinkChecks(trust, role, r, o, i);
      FirstOf2(c[0], c[1]);
      FirstOf2(c[2], c[3]);
      FirstAppended([c[0], c[1]], [c[2], c[3]]);
      assert c == [c[0], c[1]] + [c[2], c[3]];
    }
  }

  function BaselineBindings(trust: Trust, w: WelcomeBinding, r: Registry, b: Baseline): seq<Outcome> {
    OuterChecks(w, r, b.outer)
    + [Require(EnvironmentKnown(r, b.environment), BindingMismatch)]
    + InterestChecks(r, b.interest, BaselineFrame)
    + [Require(HeadersRepeat(b.outer, b.interest), BindingMismatch)]
    + LinkChecks(trust, w.role, r, b.outer, b.interest)
    + BaselineStart(w, b)
  }

  function BaselineStart(w: WelcomeBinding, b: Baseline): seq<Outcome> {
    [Require(RoleKept(w.role, b.interest.observerClass, b.actorPrivate, None), BindingMismatch),
     Require(w.role == Spectator || b.actorPrivate.Some?, InvalidBaseline),
     Require(StartsAfresh(b.interest), InvalidBaseline)]
  }

  ghost function OptionalOverlay(p: Option<ActorPrivate>, limits: Limits, r: Registry): seq<Outcome> {
    if p.Some? then OverlayChecks(p.value, limits, r) else []
  }

  /** Every condition on a baseline, in order. */
  ghost function BaselineTable(trust: Trust, limits: Limits, w: WelcomeBinding, r: Registry,
      b: Baseline): seq<Outcome> {
    BaselineBindings(trust, w, r, b)
    + VectorChecks(b.interest.entered, limits, r)
    + [Require(ArraysRepeat(b), InvalidBaseline)]
    + OptionalOverlay(b.actorPrivate, limits, r)
    + [Require(OverlayLinked(w.role, b.actorPrivate, b.interest.entered), InvalidPrivateLinkage)]
  }

  /** The view a baseline leads to, field by field. */
  function FirstView(b: Baseline): View {
    View(b.outer.contentManifestVersion, b.outer.universeId, b.outer.cellId, b.outer.universeManifestHash,
      b.outer.registryHash, b.outer.cellAddress, b.interest.localOrigin, b.outer.gravityBodyId, b.outer.voxelBodyId,
      b.interest.observerClass, b.interest.sessionEpoch, b.interest.interestEpoch, b.interest.baselineId, 0,
      b.interest.eventSequence, b.interest.tick, b.interest.entered, b.environment, b.conservationValid,
      b.actorPrivate, b.interest.transferLink, "")
  }

  lemma BaselineBindingsAre(trust: Trust, w: WelcomeBinding, r: Registry, b: Baseline)
    ensures OuterOutcome(w, r, b.outer).And(EnvironmentOutcome(r, b.environment))
              .And(HeaderOutcome(r, b.interest, BaselineFrame)).And(RepeatedOutcome(b.outer, b.interest))
              .And(TransferLinkOutcome(trust, w.role, r, b.outer, b.interest))
              .And(RoleOutcome(w.role, b.interest.observerClass, b.actorPrivate, None))
              .And(Require(w.role.Player? ==> b.actorPrivate.Some?, InvalidBaseline))
              .And(BaselineShape(b.interest))
            == First(BaselineBindings(trust, w, r, b))
  {
    hide *;
    OuterIs(w, r, b.outer);
    EnvironmentIs(r, b.environment);
    InterestIs(r, b.interest, BaselineFrame);
    RepeatsIs(b.outer, b.interest);
    LinkIs(trust, w.role, r, b.outer, b.interest);
    StartIs(w, b);
    BindingsSplit(trust, w, r, b);
    FirstOf1(Require(EnvironmentKnown(r, b.environment), BindingMismatch));
    FirstOf1(Require(HeadersRepeat(b.outer, b.interest), BindingMismatch));
    AndThree(OuterOutcome(w, r, b.outer).And(EnvironmentOutcome(r, b.environment))
      .And(HeaderOutcome(r, b.interest, BaselineFrame)).And(RepeatedOutcome(b.outer, b.interest))
      .And(TransferLinkOutcome(trust, w.role, r, b.outer, b.interest)),
      RoleOutcome(w.role, b.interest.observerClass, b.actorPrivate, None),
      Require(w.role.Player? ==> b.actorPrivate.Some?, InvalidBaseline), BaselineShape(b.interest));
  }

  lemma RepeatsIs(o: Outer, i: Interest)
    ensures RepeatedOutcome(o, i) == Require(HeadersRepeat(o, i), BindingMismatch)
  {}

  lemma AndThree(a: Outcome, b: Outcome, c: Outcome, e: Outcome)
    ensures a.And(b).And(c).And(e) == a.And(b.And(c).And(e))
  {}

  lemma StartIs(w: WelcomeBinding, b: Baseline)
    ensures First(BaselineStart(w, b))
        == RoleOutcome(w.role, b.interest.observerClass, b.actorPrivate, None)
           .And(Require(w.role.Player? ==> b.actorPrivate.Some?, InvalidBaseline)).And(BaselineShape(b.interest))
  {
    RoleIs(w.role, b.interest.observerClass, b.actorPrivate, None);
    assert BaselineShape(b.interest) == Require(StartsAfresh(b.interest), InvalidBaseline);
    hide First, RoleKept, RoleOutcome, StartsAfresh, BaselineShape;
    var c := BaselineStart(w, b);
    FirstOf3(c[0], c[1], c[2]);
  }

  lemma BindingsSplit(trust: Trust, w: WelcomeBinding, r: Registry, b: Baseline)
    ensures First(BaselineBindings(trust, w, r, b))
        == First(OuterChecks(w, r, b.outer)).And(First([Require(EnvironmentKnown(r, b.environment), BindingMismatch)]))
           .And(First(InterestChecks(r, b.interest, BaselineFrame)))
           .And(First([Require(HeadersRepeat(b.outer, b.interest), BindingMismatch)]))
           .And(First(LinkChecks(trust, w.role, r, b.outer, b.interest))).And(First(BaselineStart(w, b)))
  {
    hide First, OuterChecks, InterestChecks, EnvironmentKnown, HeadersRepeat, LinkChecks, BaselineStart;
    SixGroups(OuterChecks(w, r, b.outer), [Require(EnvironmentKnown(r, b.environment), BindingMismatch)],
      InterestChecks(r, b.interest, BaselineFrame), [Require(HeadersRepeat(b.outer, b.interest), BindingMismatch)],
      LinkChecks(trust, w.role, r, b.outer, b.interest), BaselineStart(w, b));
  }

  lemma SixGroups(a: seq<Outcome>, b: seq<Outcome>, c: seq<Outcome>, e: seq<Outcome>, f: seq<Outcome>,
      g: seq<Outcome>)
    ensures First(a + b + c + e + f + g)
        == First(a).And(First(b)).And(First(c)).And(First(e)).And(First(f)).And(First(g))
  {
    hide First;
    FirstAppended(a, b);
    FirstAppended(a + b, c);
    FirstAppended(a + b + c, e);
    FirstAppended(a + b + c + e, f);
    FirstAppended(a + b + c + e + f, g);
  }

  lemma BaselineHeadersAre(trust: Trust, limits: Limits, w: WelcomeBinding, r: Registry, b: Baseline)
    ensures BaselineHeaders(trust, limits, w, r, b)
        == First(BaselineBindings(trust, w, r, b) + VectorChecks(b.interest.entered, limits, r))
  {
    BaselineBindingsAre(trust, w, r, b);
    VectorIs(b.interest.entered, limits, r);
    hide First, BaselineBindings, VectorChecks, OuterOutcome, EnvironmentOutcome, HeaderOutcome, RepeatedOutcome,
      TransferLinkOutcome, RoleOutcome, BaselineShape, VectorOutcome;
    FirstAppended(BaselineBindings(trust, w, r, b), VectorChecks(b.interest.entered, limits, r));
  }

  lemma OptionalOverlayIs(p: Option<ActorPrivate>, limits: Limits, r: Registry)
    ensures OptionalPrivate(p, limits, r) == First(OptionalOverlay(p, limits, r))
  {
    hide First, OverlayChecks, ActorPrivateOutcome;
    FirstOfNone();
    if p.Some? { OverlayIs(p.value, limits, r); }
  }

  lemma BaselineSteps(trust: Trust, limits: Limits, w: WelcomeBinding, r: Registry, b: Baseline)
    ensures ValidatedBaseline(trust, limits, w, r, b)
        == Decided(BaselineHeaders(trust, limits, w, r, b).And(ArraysOutcome(b))
                     .And(OptionalPrivate(b.actorPrivate, limits, r))
                     .And(LinkageOutcome(w.role, b.actorPrivate, b.interest.entered)),
             Hashed(trust, BaselineView(b), b.interest.viewHash))
  {
    hide BaselineHeaders, ArraysOutcome, OptionalPrivate, LinkageOutcome, Hashed, BaselineView;
  }

  lemma FirstViewIs(b: Baseline)
    ensures BaselineView(b) == FirstView(b)
  {}

  /** After the checks before the linkage everything it relies on is in order. */
  lemma BaselineOrdered(trust: Trust, limits: Limits, w: WelcomeBinding, r: Registry, b: Baseline)
    requires BaselineHeaders(trust, limits, w, r, b).Pass? && OptionalPrivate(b.actorPrivate, limits, r).Pass?
    ensures EntitiesOrdered(b.interest.entered)
    ensures b.actorPrivate.Some? ==> PrivateOrdered(b.actorPrivate.value)
  {
    assert VectorOutcome(b.interest.entered, limits, r).Pass? by {
      hide VectorOutcome, OuterOutcome, EnvironmentOutcome, HeaderOutcome, RepeatedOutcome, TransferLinkOutcome,
        RoleOutcome, BaselineShape;
    }
    hide BaselineHeaders, EntitiesOrdered, PrivateOrdered, AddressOutcome, OptionalEnvironment;
    VectorOrdered(b.interest.entered, limits, r);
  }

  /** The first broken condition of the table decides; if none is broken, the sealed first view. */
  lemma BaselineDecided(trust: Trust, limits: Limits, w: WelcomeBinding, r: Registry, b: Baseline)
    ensures ValidatedBaseline(trust, limits, w, r, b)
        == Decided(First(BaselineTable(trust, limits, w, r, b)), Sealed(trust, FirstView(b), b.interest.viewHash))
  {
    hide *;
    BaselineSteps(trust, limits, w, r, b);
    BaselineHeadersAre(trust, limits, w, r, b);
    ArraysAre(b);
    OptionalOverlayIs(b.actorPrivate, limits, r);
    FirstViewIs(b);
    SealIs(trust, FirstView(b), b.interest.viewHash);
    if BaselineHeaders(trust, limits, w, r, b).Pass? && OptionalPrivate(b.actorPrivate, limits, r).Pass? {
      BaselineOrdered(trust, limits, w, r, b);
      LinkageIs(w.role, b.actorPrivate, b.interest.entered);
    }
    BaselineTableSplits(trust, limits, w, r, b);
    LastOnly(BaselineHeaders(trust, limits, w, r, b), ArraysOutcome(b), OptionalPrivate(b.actorPrivate, limits, r),
      LinkageOutcome(w.role, b.actorPrivate, b.interest.entered),
      Require(OverlayLinked(w.role, b.actorPrivate, b.interest.entered), InvalidPrivateLinkage));
  }

  /** A later condition matters only when the earlier ones hold. */
  lemma LastOnly(a: Outcome, b: Outcome, c: Outcome, e: Outcome, f: Outcome)
    requires a.Pass? && c.Pass? ==> e == f
    ensures a.And(b).And(c).And(e) == a.And(b).And(c).And(f)
  {}

  lemma BaselineTableSplits(trust: Trust, limits: Limits, w: WelcomeBinding, r: Registry, b: Baseline)
    ensures First(BaselineTable(trust, limits, w, r, b))
        == First(BaselineBindings(trust, w, r, b) + VectorChecks(b.interest.entered, limits, r))
           .And(Require(ArraysRepeat(b), InvalidBaseline))
           .And(First(OptionalOverlay(b.actorPrivate, limits, r)))
           .And(Require(OverlayLinked(w.role, b.actorPrivate, b.interest.entered), InvalidPrivateLinkage))
  {
    hide First, BaselineBindings, VectorChecks, OptionalOverlay, OverlayLinked, ArraysRepeat;
    var a := BaselineBindings(trust, w, r, b) + VectorChecks(b.interest.entered, limits, r);
    var x, c := Require(ArraysRepeat(b), InvalidBaseline), OptionalOverlay(b.actorPrivate, limits, r);
    var e := Require(OverlayLinked(w.role, b.actorPrivate, b.interest.entered), InvalidPrivateLinkage);
    FirstOf1(x);
    FirstOf1(e);
    FirstAppended(a, [x]);
    FirstAppended(a + [x], c);
    FirstAppended(a + [x] + c, [e]);
  }

  // ---- handoffs --------------------------------------------------------------------------

  /** A handoff opens in its preparing phase, for a real transfer to another cell of the universe. */
  lemma HandoffOpens(trust: Trust, r: Registry, source: View, s: HandoffStatus)
    ensures InitialHandoff(trust, r, source, s)
        == First([Require(s.phase == Preparing, UnexpectedMessage),
                  Require(ValidStableId(s.transferId) && s.placementGeneration > 0 && s.destination.schemaVersion == 1,
                    BindingMismatch)]
                 + [Placed(r, A.UniverseAddress(s.destination.universeId, s.destination.sector, s.destination.cell,
                      Axes(0, 0, 0))),
                    match trust.cellId(s.destination)
                    case Err(error) => Fail(error)
                    case Ok(id) => Require(id != source.cellId, BindingMismatch)])
  {
    hide First, ValidStableId, A.ValidIn;
    var a := [Require(s.phase == Preparing, UnexpectedMessage),
      Require(ValidStableId(s.transferId) && s.placementGeneration > 0 && s.destination.schemaVersion == 1,
        BindingMismatch)];
    var last := match trust.cellId(s.destination)
      case Err(error) => Fail(error)
      case Ok(id) => Require(id != source.cellId, BindingMismatch);
    var b := [Placed(r, A.UniverseAddress(s.destination.universeId, s.destination.sector, s.destination.cell,
      Axes(0, 0, 0))), last];
    FirstOf2(a[0], a[1]);
    FirstOf2(b[0], b[1]);
    FirstAppended(a, b);
  }

  /** An open handoff stays the same transfer to the same cell and moves by at most one phase, never
      back. */
  lemma HandoffMoves(current: HandoffBinding, s: HandoffStatus)
    ensures HandoffProgress(current, s) == Require(
      && s.transferId == current.status.transferId && s.destination == current.status.destination
      && s.placementGeneration == current.status.placementGeneration
      && (current.status.phase, s.phase) in {(Preparing, Preparing), (Preparing, Importing), (Importing, Importing),
           (Importing, VerifyingDestination), (VerifyingDestination, VerifyingDestination)}, FrontierMismatch)
  {}

  /** Only the destination baseline of this very transfer ends a handoff: named by it, while it
      verifies its destination, one epoch up in the same session. */
  lemma HandoffEnds(h: HandoffBinding, v: View)
    ensures DestinationBaseline(h, v)
        == if v.transferLink == None then Fail(InvalidBaseline)
           else Require(
             && v.transferLink.value.transferId == h.status.transferId
             && v.transferLink.value.destination == h.status.destination
             && v.transferLink.value.placementGeneration == h.status.placementGeneration
             && h.status.phase == VerifyingDestination
             && v.sessionEpoch == h.sessionEpoch && v.interestEpoch == h.priorInterestEpoch + 1, FrontierMismatch)
  {}

  /** A recovery baseline is a new baseline of a later epoch in the same session for the same kind of
      observer, with a clock that does not fall back. */
  lemma RecoveryIs(current: View, v: View)
    ensures RecoveryBaseline(current, v) == Require(
      && v.sessionEpoch == current.sessionEpoch && v.observerClass == current.observerClass
      && current.interestEpoch < v.interestEpoch && v.baselineId != current.baselineId
      && current.eventSequence <= v.eventSequence && current.tick <= v.tick, FrontierMismatch)
  {}
}
