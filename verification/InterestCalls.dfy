/** What each call of the staged verifier answers and leaves behind: its transition by message, its
    tokens, acknowledgements and summaries, written out on the state. */
module InterestCalls {
  import opened Prelude
  import opened InterestModel
  import opened InterestFrames
  import opened InterestVerifier
  import opened InterestAcceptance

  /** The counter after this one: it wraps past zero. */
  function Later(n: u64): u64 { if n < 0xFFFF_FFFF_FFFF_FFFF then n + 1 else 1 }

  /** The welcome names every schema this verifier was built and configured for. */
  predicate Compatible(config: Config, m: Message)
    requires m.Welcome?
  {
    && m.protocolVersion == 18 && m.projectionSchemaVersion == 4 && m.registrySchemaVersion == 1
    && m.manifestSchemaVersion == 4 && m.interestSchemaVersion == 2
    && m.binding.worldSchemaVersion == config.worldSchemaVersion
    && m.binding.eventSchemaVersion == config.eventSchemaVersion
    && m.binding.contentSchemaVersion == config.contentSchemaVersion
    && m.binding.contentManifestVersion == config.contentManifestVersion
    && m.binding.role == config.expectedRole
  }

  /** A transition that keeps the committed state. */
  predicate Only(r: Result<Transition, ErrorCode>, kind: StageKind, c: Committed) {
    r.Ok? && r.value.kind == kind && r.value.next == c
  }

  /** The first message is a compatible welcome, once. */
  lemma WelcomeOnce(trust: Trust, config: Config, c: Committed, m: Message)
    requires m.Welcome?
    ensures var r := Checked(trust, config, c, m);
            if c.welcome.Some? then r == Err(UnexpectedMessage)
            else if !Compatible(config, m) then r == Err(IncompatibleWelcome)
            else Only(r, WelcomeStage, Committed(Some(m.binding), c.registry, c.view, c.handoff))
  {
    hide OnRegistry, OnHandoff, OnBaseline, OnDelta, OnReceipt;
  }

  /** The second is the registry, once. */
  lemma RegistryOnce(trust: Trust, config: Config, c: Committed, registry: Rest, manifest: Rest)
    ensures var r := Checked(trust, config, c, RegistryDocuments(registry, manifest));
            if c.welcome.None? || c.registry.Some? then r == Err(UnexpectedMessage)
            else
              match trust.validateDocuments(c.welcome.value, config, registry, manifest)
              case Err(error) => r == Err(error)
              case Ok(binding) => Only(r, RegistryStage, Committed(c.welcome, Some(binding), c.view, c.handoff))
  {
    hide OnWelcome, OnHandoff, OnBaseline, OnDelta, OnReceipt;
  }

  /** A player's handoff opens on a view and moves while it is open; either way nothing is left to
      present, and the handoff remembers the session and epoch it left. */
  lemma HandoffHides(trust: Trust, config: Config, c: Committed, s: HandoffStatus)
    ensures var r := Checked(trust, config, c, Handoff(s));
            if c.welcome.None? || c.registry.None? || c.welcome.value.role == Spectator then r == Err(UnexpectedMessage)
            else if c.handoff.Some? then
              var h, outcome := c.handoff.value, HandoffProgress(c.handoff.value, s);
              if outcome.Fail? then r == Err(outcome.error)
              else Only(r, HandoffStage, Committed(c.welcome, c.registry, None,
                Some(HandoffBinding(s, h.sessionEpoch, h.priorInterestEpoch))))
            else if c.view.None? then r == Err(UnexpectedMessage)
            else
              var v, outcome := c.view.value, InitialHandoff(trust, c.registry.value, c.view.value, s);
              if outcome.Fail? then r == Err(outcome.error)
              else Only(r, HandoffStage, Committed(c.welcome, c.registry, None,
                Some(HandoffBinding(s, v.sessionEpoch, v.interestEpoch))))
  {
    hide HandoffProgress, InitialHandoff, OnWelcome, OnRegistry, OnBaseline, OnDelta, OnReceipt;
  }

  /** A checked baseline is installed as the view, and ends a handoff: as its destination if one is
      open, as a recovery if a view is held, as the first one otherwise; only the destination of a
      handoff may name a transfer. */
  lemma BaselineInstalls(trust: Trust, config: Config, c: Committed, b: Baseline)
    ensures var r := Checked(trust, config, c, InterestBaseline(b));
            if c.welcome.None? || c.registry.None? then r == Err(UnexpectedMessage)
            else
              match ValidatedBaseline(trust, config.limits, c.welcome.value, c.registry.value, b)
              case Err(error) => r == Err(error)
              case Ok(v) =>
                var outcome := match (c.handoff, c.view)
                  case (Some(h), _) => DestinationBaseline(h, v)
                  case (None, Some(current)) =>
                    First([Require(v.transferLink == None, InvalidBaseline), RecoveryBaseline(current, v)])
                  case (None, None) => Require(v.transferLink == None, InvalidBaseline);
                if outcome.Fail? then r == Err(outcome.error)
                else Only(r, BaselineStage, Committed(c.welcome, c.registry, Some(v), None))
  {
    hide ValidatedBaseline, DestinationBaseline, RecoveryBaseline, First, OnWelcome, OnRegistry, OnHandoff, OnDelta,
      OnReceipt;
    if c.welcome.Some? && c.registry.Some? && c.view.Some? {
      var checked := ValidatedBaseline(trust, config.limits, c.welcome.value, c.registry.value, b);
      if checked.Ok? {
        FirstOf2(Require(checked.value.transferLink == None, InvalidBaseline),
          RecoveryBaseline(c.view.value, checked.value));
      }
    }
  }

  /** A checked delta replaces the view it was checked against. */
  lemma DeltaInstalls(trust: Trust, config: Config, c: Committed, d: Delta)
    ensures var r := Checked(trust, config, c, InterestDelta(d));
            if c.welcome.None? || c.registry.None? || c.view.None? then r == Err(UnexpectedMessage)
            else
              match ValidatedDelta(trust, config.limits, c.welcome.value, c.registry.value, c.view.value, d)
              case Err(error) => r == Err(error)
              case Ok(v) => Only(r, DeltaStage, Committed(c.welcome, c.registry, Some(v), c.handoff))
  {
    hide ValidatedDelta, OnWelcome, OnRegistry, OnHandoff, OnBaseline, OnReceipt;
  }

  /** Receipts need a view, snapshots and motion states are of the past, a fatal message always
      passes; none of them changes what is committed. */
  lemma OthersKeep(trust: Trust, config: Config, c: Committed, rest: Rest, code: string)
    ensures var accepted, rejected := Checked(trust, config, c, IntentAccepted(rest)),
                Checked(trust, config, c, IntentRejected(rest));
            if c.view.Some? then Only(accepted, AcceptedStage, c) && Only(rejected, RejectedStage, c)
            else accepted == Err(UnexpectedMessage) && rejected == Err(UnexpectedMessage)
    ensures Checked(trust, config, c, Snapshot(rest)) == Err(LegacyMessage)
    ensures Checked(trust, config, c, MotionState(rest)) == Err(LegacyMessage)
    ensures Only(Checked(trust, config, c, Fatal(code, rest)), FatalStage, c)
  {
    hide OnWelcome, OnRegistry, OnHandoff, OnBaseline, OnDelta;
  }

  // ---- the four calls --------------------------------------------------------------------

  /** Staging: refused while another frame is pending, unless a preparing handoff supersedes it; an
      accepted frame is held with its transition and its text under a token of the present
      generation and the next number. */
  lemma StageCall(trust: Trust, config: Config, s: State, frame: Frame)
    ensures var (after, r) := Staged(trust, config, s, frame);
            match frame
            case Err(error) => after == s && r == Err(error)
            case Ok(m) =>
              if s.pending.Some? && !(m.Handoff? && m.handoff.phase == Preparing) then
                after == s && r == Err(PendingStage)
              else
                var generation := if s.pending.Some? then Later(s.generation) else s.generation;
                match (trust.sanitize(m), Checked(trust, config, s.committed, m))
                case (Err(error), _) =>
                  after == State(s.committed, None, generation, s.nextSequence) && r == Err(error)
                case (Ok(_), Err(error)) =>
                  after == State(s.committed, None, generation, s.nextSequence) && r == Err(error)
                case (Ok(text), Ok(transition)) =>
                  var token := Token(generation, s.nextSequence);
                  && r == Ok(token)
                  && after == State(s.committed, Some(Pending(token, transition, m, text)), generation,
                       Later(s.nextSequence))
  {
    hide Checked;
  }

  /** Commit: only under the pending token; the transition is installed as a whole, the generation
      moves on, and the answer carries the kind, the summary of the view now held, and for a
      baseline or a delta the text acknowledging that view. */
  lemma CommitCall(trust: Trust, s: State, token: Token)
    ensures var (after, r) := CommitStep(trust, s, token);
            if s.pending.None? || s.pending.value.token != token then after == s && r == Err(InvalidStageToken)
            else
              var t := s.pending.value.transition;
              var text: Result<Option<string>, ErrorCode> :=
                if t.next.view.Some? && (t.kind == BaselineStage || t.kind == DeltaStage) then
                  var v := t.next.view.value;
                  (match trust.acknowledge(Acknowledgement(v.sessionEpoch, v.interestEpoch, v.baselineId,
                     v.deltaSequence, v.viewHash))
                   case Err(error) => Err(error)
                   case Ok(text) => Ok(Some(text)))
                else Ok(None);
              if text.Err? then after == s && r == Err(text.error)
              else
                && after == State(t.next, None, Later(s.generation), s.nextSequence)
                && r.Ok? && r.value.kind == t.kind && r.value.acknowledgement == text.value
                && (match t.next.view
                    case None => r.value.view == None
                    case Some(v) =>
                      r.value.view == Some(Summary(v.sessionEpoch, v.interestEpoch, v.baselineId, v.deltaSequence,
                        v.viewHash, |v.entities|, v.actorPrivate != None)))
  {}

  /** Discard and reset drop what is pending and move the generation on; a reset also forgets
      everything committed. */
  lemma DiscardCall(s: State, token: Token)
    ensures DiscardStep(s, token)
        == if s.pending.Some? && s.pending.value.token == token
           then (State(s.committed, None, Later(s.generation), s.nextSequence), Pass)
           else (s, Fail(InvalidStageToken))
    ensures ResetStep(s) == State(Committed(None, None, None, None), None, Later(s.generation), s.nextSequence)
  {}
}
