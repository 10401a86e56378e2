/** The staged verifier of one connection: frames are checked against the committed state,
    held as one pending transition, and installed or dropped with a one-use token. */
module InterestVerifier {
  import opened Prelude
  import opened InterestModel
  import opened InterestFrames

  datatype StageKind =
    | WelcomeStage | RegistryStage | HandoffStage | BaselineStage | DeltaStage | AcceptedStage | RejectedStage
      | FatalStage

  datatype Token = Token(generation: u64, sequence: u64)

  datatype Transition = Transition(kind: StageKind, next: Committed)

  datatype Pending = Pending(token: Token, transition: Transition, message: Message, sanitized: string)

  datatype Summary = Summary(
    sessionEpoch: string, interestEpoch: u64, baselineId: string, deltaSequence: u64, viewHash: string,
    entityCount: nat, hasActorPrivate: bool)

  datatype CommitOutcome = CommitOutcome(kind: StageKind, acknowledgement: Option<string>, view: Option<Summary>)

  datatype State = State(committed: Committed, pending: Option<Pending>, generation: u64, nextSequence: u64)

  const NOTHING: Committed := Committed(None, None, None, None)
  const INITIAL: State := State(NOTHING, None, 1, 1)

  function SummaryOf(v: View): Summary {
    Summary(v.sessionEpoch, v.interestEpoch, v.baselineId, v.deltaSequence, v.viewHash, |v.entities|,
      v.actorPrivate.Some?)
  }

  /** `wrapping_add(1).max(1)`. */
  function Next(n: u64): u64 { if n == U64_MAX then 1 else n + 1 }

  function Advanced(s: State): State { s.(generation := Next(s.generation)) }

  // ---- one message against the committed state -------------------------------------------

  function WelcomeOutcome(config: Config, m: Message): Outcome
    requires m.Welcome?
  {
    Require(&& m.protocolVersion == PROTOCOL_VERSION
            && m.projectionSchemaVersion == PROJECTION_SCHEMA_VERSION
            && m.registrySchemaVersion == CELESTIAL_REGISTRY_SCHEMA_VERSION
            && m.manifestSchemaVersion == UNIVERSE_MANIFEST_SCHEMA_VERSION
            && m.interestSchemaVersion == INTEREST_SCHEMA_VERSION
            && m.binding == WelcomeBinding(config.worldSchemaVersion, config.eventSchemaVersion,
              config.contentSchemaVersion,
                                           config.contentManifestVersion, config.expectedRole), IncompatibleWelcome)
  }

  predicate Established(c: Committed) { c.welcome.Some? && c.registry.Some? }

  function OnWelcome(config: Config, c: Committed, m: Message): Result<Transition, ErrorCode>
    requires m.Welcome?
  {
    var allowed := Require(c.welcome.None?, UnexpectedMessage).And(WelcomeOutcome(config, m));
    :- allowed;
    Ok(Transition(WelcomeStage, c.(welcome := Some(m.binding))))
  }

  function OnRegistry(trust: Trust, config: Config, c: Committed, registry: Rest, manifest: Rest): Result<Transition,
      ErrorCode> {
    var allowed := Require(c.welcome.Some? && c.registry.None?, UnexpectedMessage);
    :- allowed;
    match trust.validateDocuments(c.welcome.value, config, registry, manifest)
    case Err(error) => Err(error)
    case Ok(binding) => Ok(Transition(RegistryStage, c.(registry := Some(binding))))
  }

  function OnHandoff(trust: Trust, c: Committed, s: HandoffStatus): Result<Transition, ErrorCode> {
    var allowed := Require(Established(c) && c.welcome.value.role.Player?, UnexpectedMessage);
    :- allowed;
    if c.handoff.Some? then
      :- HandoffProgress(c.handoff.value, s);
      Ok(Transition(HandoffStage, c.(handoff := Some(c.handoff.value.(status := s)), view := None)))
    else
      :- Require(c.view.Some?, UnexpectedMessage);
      var v := c.view.value;
      :- InitialHandoff(trust, c.registry.value, v, s);
      Ok(Transition(HandoffStage, c.(handoff := Some(HandoffBinding(s, v.sessionEpoch, v.interestEpoch)),
        view := None)))
  }

  /** Whether a checked baseline may follow the committed state. */
  function BaselineFollows(c: Committed, candidate: View): Outcome {
    if c.handoff.Some? then DestinationBaseline(c.handoff.value, candidate)
    else if candidate.transferLink.Some? then Fail(InvalidBaseline)
    else if c.view.Some? then RecoveryBaseline(c.view.value, candidate)
    else Pass
  }

  function OnBaseline(trust: Trust, config: Config, c: Committed, b: Baseline): Result<Transition, ErrorCode> {
    var allowed := Require(Established(c), UnexpectedMessage);
    :- allowed;
    match ValidatedBaseline(trust, config.limits, c.welcome.value, c.registry.value, b)
    case Err(error) => Err(error)
    case Ok(candidate) =>
      :- BaselineFollows(c, candidate);
      Ok(Transition(BaselineStage, c.(handoff := None, view := Some(candidate))))
  }

  function OnDelta(trust: Trust, config: Config, c: Committed, d: Delta): Result<Transition, ErrorCode> {
    var allowed := Require(Established(c) && c.view.Some?, UnexpectedMessage);
    :- allowed;
    match ValidatedDelta(trust, config.limits, c.welcome.value, c.registry.value, c.view.value, d)
    case Err(error) => Err(error)
    case Ok(candidate) => Ok(Transition(DeltaStage, c.(view := Some(candidate))))
  }

  function OnReceipt(c: Committed, kind: StageKind): Result<Transition, ErrorCode> {
    var allowed := Require(c.view.Some?, UnexpectedMessage);
    :- allowed;
    Ok(Transition(kind, c))
  }

  /** The transition a message asks for; it depends on the committed state alone. */
  function Checked(trust: Trust, config: Config, c: Committed, m: Message): Result<Transition, ErrorCode> {
    match m
    case Welcome(_, _, _, _, _, _, _) => OnWelcome(config, c, m)
    case RegistryDocuments(registry, manifest) => OnRegistry(trust, config, c, registry, manifest)
    case InterestBaseline(baseline) => OnBaseline(trust, config, c, baseline)
    case InterestDelta(delta) => OnDelta(trust, config, c, delta)
    case Handoff(status) => OnHandoff(trust, c, status)
    case Snapshot(_) => Err(LegacyMessage)
    case MotionState(_) => Err(LegacyMessage)
    case IntentAccepted(_) => OnReceipt(c, AcceptedStage)
    case IntentRejected(_) => OnReceipt(c, RejectedStage)
    case Fatal(_, _) => Ok(Transition(FatalStage, c))
  }

  // ---- the four calls --------------------------------------------------------------------

  predicate Supersedes(m: Message) { m.Handoff? && m.handoff.phase.Preparing? }

  /** A frame as the strict parser delivers it: a message, or the parser's error. */
  type Frame = Result<Message, ErrorCode>

  function Staged(trust: Trust, config: Config, s: State, frame: Frame): (State, Result<Token, ErrorCode>) {
    match frame
    case Err(error) => (s, Err(error))
    case Ok(m) =>
      if s.pending.Some? && !Supersedes(m) then (s, Err(PendingStage))
      else
        var cleared := if s.pending.Some? then Advanced(s.(pending := None)) else s;
        match trust.sanitize(m)
        case Err(error) => (cleared, Err(error))
        case Ok(sanitized) =>
          match Checked(trust, config, s.committed, m)
          case Err(error) => (cleared, Err(error))
          case Ok(transition) =>
            var token := Token(cleared.generation, cleared.nextSequence);
            (cleared.(nextSequence := Next(cleared.nextSequence),
              pending := Some(Pending(token, transition, m, sanitized))), Ok(token))
  }

  predicate Matches(s: State, token: Token) { s.pending.Some? && s.pending.value.token == token }

  function AckOf(v: View): Acknowledgement {
    Acknowledgement(v.sessionEpoch, v.interestEpoch, v.baselineId, v.deltaSequence, v.viewHash)
  }

  predicate Acknowledges(t: Transition) { (t.kind.BaselineStage? || t.kind.DeltaStage?) && t.next.view.Some? }

  function AcknowledgementText(trust: Trust, t: Transition): Result<Option<string>, ErrorCode> {
    if !Acknowledges(t) then Ok(None)
    else
      match trust.acknowledge(AckOf(t.next.view.value))
      case Err(error) => Err(error)
      case Ok(text) => Ok(Some(text))
  }

  function CommitStep(trust: Trust, s: State, token: Token): (State, Result<CommitOutcome, ErrorCode>) {
    if !Matches(s, token) then (s, Err(InvalidStageToken))
    else
      var t := s.pending.value.transition;
      match AcknowledgementText(trust, t)
      case Err(error) => (s, Err(error))
      case Ok(acknowledgement) =>
        (Advanced(s.(committed := t.next, pending := None)),
         Ok(CommitOutcome(t.kind, acknowledgement, if t.next.view.Some? then Some(SummaryOf(t.next.view.value))
           else None)))
  }

  function DiscardStep(s: State, token: Token): (State, Outcome) {
    if !Matches(s, token) then (s, Fail(InvalidStageToken)) else (Advanced(s.(pending := None)), Pass)
  }

  function ResetStep(s: State): State { Advanced(s.(committed := NOTHING, pending := None)) }

  // ---- the verifier object ---------------------------------------------------------------

  class InterestVerifier {
    const trust: Trust
    const config: Config
    var committed: Committed
    var pending: Option<Pending>
    var generation: u64
    var nextSequence: u64

    constructor (trust: Trust, config: Config)
      ensures this.trust == trust && this.config == config && Observed() == INITIAL
    {
      this.trust, this.config := trust, config;
      committed, pending, generation, nextSequence := NOTHING, None, 1, 1;
    }

    ghost function Observed(): State
      reads this
    {
      State(committed, pending, generation, nextSequence)
    }

    method AdvanceGeneration()
      modifies this`generation
      ensures Observed() == Advanced(old(Observed()))
    {
      generation := if generation == U64_MAX then 1 else generation + 1;
    }

    method ValidateMessage(m: Message) returns (r: Result<Transition, ErrorCode>)
      ensures r == Checked(trust, config, committed, m)
    {
      hide ValidatedBaseline, ValidatedDelta, InitialHandoff, HandoffProgress, BaselineFollows, WelcomeOutcome;
      match m {
        case Welcome(_, _, _, _, _, _, _) => r := OnWelcome(config, committed, m);
        case RegistryDocuments(registry, manifest) => r := OnRegistry(trust, config, committed, registry, manifest);
        case Handoff(status) => r := OnHandoff(trust, committed, status);
        case InterestBaseline(baseline) =>
          if !Established(committed) { return Err(UnexpectedMessage); }
          var candidate := ValidateBaseline(trust, config.limits, committed.welcome.value, committed.registry.value,
              baseline);
          if candidate.Err? { return Err(candidate.error); }
          var follows := BaselineFollows(committed, candidate.value);
          if follows.Fail? { return Err(follows.error); }
          var next := committed;
          if next.handoff.Some? { next := next.(handoff := None); }
          next := next.(view := Some(candidate.value));
          r := Ok(Transition(BaselineStage, next));
        case InterestDelta(delta) =>
          if !Established(committed) || committed.view.None? { return Err(UnexpectedMessage); }
          var candidate := ValidateDelta(trust, config.limits, committed.welcome.value, committed.registry.value,
              committed.view.value, delta);
          if candidate.Err? { return Err(candidate.error); }
          r := Ok(Transition(DeltaStage, committed.(view := Some(candidate.value))));
        case Snapshot(_) => r := Err(LegacyMessage);
        case MotionState(_) => r := Err(LegacyMessage);
        case IntentAccepted(_) => r := OnReceipt(committed, AcceptedStage);
        case IntentRejected(_) => r := OnReceipt(committed, RejectedStage);
        case Fatal(_, _) => r := Ok(Transition(FatalStage, committed));
      }
    }

    method Stage(frame: Frame) returns (r: Result<Token, ErrorCode>)
      modifies this
      ensures (Observed(), r) == Staged(trust, config, old(Observed()), frame)
    {
      hide Checked;
      if frame.Err? { return Err(frame.error); }
      var m := frame.value;
      if pending.Some? && !Supersedes(m) { return Err(PendingStage); }
      if pending.Some? {
        pending := None;
        AdvanceGeneration();
      }
      var sanitized := trust.sanitize(m);
      if sanitized.Err? { return Err(sanitized.error); }
      var transition := ValidateMessage(m);
      if transition.Err? { return Err(transition.error); }
      var token := Token(generation, nextSequence);
      nextSequence := if nextSequence == U64_MAX then 1 else nextSequence + 1;
      pending := Some(Pending(token, transition.value, m, sanitized.value));
      r := Ok(token);
    }

    method Commit(token: Token) returns (r: Result<CommitOutcome, ErrorCode>)
      modifies this
      ensures (Observed(), r) == CommitStep(trust, old(Observed()), token)
    {
      if !(pending.Some? && pending.value.token == token) { return Err(InvalidStageToken); }
      var acknowledgement := AcknowledgementText(trust, pending.value.transition);
      if acknowledgement.Err? { return Err(acknowledgement.error); }
      var taken := pending.value;
      pending := None;
      committed := taken.transition.next;
      AdvanceGeneration();
      var view := if committed.view.Some? then Some(SummaryOf(committed.view.value)) else None;
      r := Ok(CommitOutcome(taken.transition.kind, acknowledgement.value, view));
    }

    method Discard(token: Token) returns (r: Outcome)
      modifies this
      ensures (Observed(), r) == DiscardStep(old(Observed()), token)
    {
      if !(pending.Some? && pending.value.token == token) { return Fail(InvalidStageToken); }
      pending := None;
      AdvanceGeneration();
      r := Pass;
    }

    method Reset()
      modifies this
      ensures Observed() == ResetStep(old(Observed()))
    {
      committed := NOTHING;
      pending := None;
      AdvanceGeneration();
    }
  }
}
