/** Whole runs of the staged verifier: what it commits, acknowledges and accepts, in order. */
module InterestRuns {
  import opened Prelude
  import opened InterestModel
  import opened InterestFrames
  import opened InterestVerifier
  import PrivateLinkage

  datatype Event = StageEvent(frame: Frame) | CommitEvent(token: Token) | DiscardEvent(token: Token) | ResetEvent

  /** A state with its history: the tokens issued and accepted ever, and the views committed by
      baselines and deltas since the last reset with the acknowledgement each one produced. */
  datatype Trace = Trace(s: State, issued: seq<Token>, accepted: seq<Token>, frames: seq<View>,
      acknowledged: seq<string>)

  const START: Trace := Trace(INITIAL, [], [], [], [])

  function OnCommit(trust: Trust, t: Trace, token: Token): Trace {
    var (s, r) := CommitStep(trust, t.s, token);
    if r.Err? then t.(s := s)
    else
      var committed := t.(s := s, accepted := t.accepted + [token]);
      match r.value.acknowledgement
      case None => committed
      case Some(text) =>
        if s.committed.view.Some? then
          committed.(frames := t.frames + [s.committed.view.value], acknowledged := t.acknowledged + [text])
        else committed
  }

  function OnEvent(trust: Trust, config: Config, t: Trace, event: Event): Trace {
    match event
    case StageEvent(frame) =>
      var (s, r) := Staged(trust, config, t.s, frame);
      t.(s := s, issued := if r.Ok? then t.issued + [r.value] else t.issued)
    case CommitEvent(token) => OnCommit(trust, t, token)
    case DiscardEvent(token) =>
      var (s, r) := DiscardStep(t.s, token);
      t.(s := s, accepted := if r.Pass? then t.accepted + [token] else t.accepted)
    case ResetEvent => t.(s := ResetStep(t.s), frames := [], acknowledged := [])
  }

  function Run(trust: Trust, config: Config, t: Trace, events: seq<Event>): Trace
    decreases |events|
  {
    if events == [] then t else Run(trust, config, OnEvent(trust, config, t, events[0]), events[1..])
  }

  // ---- the invariant ---------------------------------------------------------------------

  /** The pending transition was computed from the current committed state. */
  predicate PendingIsCurrent(trust: Trust, config: Config, s: State) {
    s.pending.Some? ==>
      && Checked(trust, config, s.committed, s.pending.value.message) == Ok(s.pending.value.transition)
      && trust.sanitize(s.pending.value.message) == Ok(s.pending.value.sanitized)
      && s.pending.value.token.generation == s.generation
  }

  ghost predicate CommittedHolds(trust: Trust, config: Config, c: Committed) {
    && (c.registry.Some? ==> c.welcome.Some?)
    && (c.welcome.Some? ==> c.welcome.value.role == config.expectedRole)
    && (c.view.Some? || c.handoff.Some? ==> c.registry.Some?)
    && (c.view.None? || c.handoff.None?)
    && (c.handoff.Some? ==> config.expectedRole.Player?)
    && (c.view.Some? ==> ViewHolds(trust, config.limits, config.expectedRole, c.view.value))
  }

  /** The same session, and a lexicographically later epoch and delta sequence. */
  predicate Before(a: View, b: View) {
    && a.sessionEpoch == b.sessionEpoch
    && (a.interestEpoch < b.interestEpoch || (a.interestEpoch == b.interestEpoch && a.deltaSequence < b.deltaSequence))
  }

  /** Event sequence and tick never fall back, except into the destination of a handoff. */
  predicate ClockKept(a: View, b: View) {
    b.transferLink.Some? || (a.eventSequence <= b.eventSequence && a.tick <= b.tick)
  }

  /** How the committed frames lead to the committed state. */
  predicate LeadsTo(frames: seq<View>, c: Committed) {
    if frames == [] then c.view.None? && c.handoff.None?
    else
      var last := frames[|frames| - 1];
      && (c.view.Some? <==> c.handoff.None?)
      && (c.view.Some? ==> c.view.value == last)
      && (c.handoff.Some? ==>
        c.handoff.value.sessionEpoch == last.sessionEpoch && c.handoff.value.priorInterestEpoch == last.interestEpoch)
  }

  predicate FramesOrdered(frames: seq<View>) {
    && (forall i, j | 0 <= i < j < |frames| :: Before(frames[i], frames[j]))
    && (forall i | 0 < i < |frames| :: ClockKept(frames[i - 1], frames[i]))
  }

  predicate AllAcknowledged(trust: Trust, t: Trace) {
    && |t.acknowledged| == |t.frames|
    && forall i | 0 <= i < |t.frames| :: trust.acknowledge(AckOf(t.frames[i])) == Ok(t.acknowledged[i])
  }

  /** Until the sequence wraps: tokens are numbered in order of issue, accepted in that order,
      each at most once, and the pending one is the latest. */
  predicate TokensOrdered(t: Trace) {
    var n := |t.issued|;
    && t.s.nextSequence == (if n == U64_MAX then 1 else n + 1)
    && (forall i | 0 <= i < n :: t.issued[i].sequence == i + 1)
    && (forall i | 0 <= i < |t.accepted| :: t.accepted[i] in t.issued)
    && (forall i, j | 0 <= i < j < |t.accepted| :: t.accepted[i].sequence < t.accepted[j].sequence)
    && (t.s.pending.Some? ==>
          && n > 0 && t.s.pending.value.token == t.issued[n - 1]
          && forall i | 0 <= i < |t.accepted| :: t.accepted[i].sequence < n)
  }

  ghost predicate Inv(trust: Trust, config: Config, t: Trace) {
    && PendingIsCurrent(trust, config, t.s)
    && CommittedHolds(trust, config, t.s.committed)
    && LeadsTo(t.frames, t.s.committed)
    && FramesOrdered(t.frames)
    && AllAcknowledged(trust, t)
    && (|t.issued| <= U64_MAX ==> TokensOrdered(t))
  }

  // ---- one transition --------------------------------------------------------------------

  predicate InstallsView(t: Transition) { t.kind.BaselineStage? || t.kind.DeltaStage? }

  lemma CheckedHolds(trust: Trust, config: Config, c: Committed, m: Message)
    requires CommittedHolds(trust, config, c) && Checked(trust, config, c, m).Ok?
    ensures CommittedHolds(trust, config, Checked(trust, config, c, m).value.next)
  {
    hide ViewHolds, ValidatedBaseline, ValidatedDelta, InitialHandoff, HandoffProgress, DestinationBaseline,
        RecoveryBaseline;
    if m.InterestBaseline? {
      BaselineHolds(trust, config.limits, c.welcome.value, c.registry.value, m.baseline);
    }
    if m.InterestDelta? {
      DeltaHolds(trust, config.limits, c.welcome.value, c.registry.value, c.view.value, m.delta);
    }
  }

  /** A frame that installs a view goes strictly forward from the last one. */
  ghost predicate Advances(t: Transition, frames: seq<View>) {
    if InstallsView(t) then
      && t.next.view.Some? && t.next.handoff.None?
      && (frames != [] ==>
        Before(frames[|frames| - 1], t.next.view.value) && ClockKept(frames[|frames| - 1], t.next.view.value))
    else LeadsTo(frames, t.next)
  }

  lemma BaselineAdvances(trust: Trust, config: Config, c: Committed, b: Baseline, frames: seq<View>)
    requires LeadsTo(frames, c) && OnBaseline(trust, config, c, b).Ok?
    ensures Advances(OnBaseline(trust, config, c, b).value, frames)
  {
    hide ValidatedBaseline;
  }

  lemma DeltaAdvances(trust: Trust, config: Config, c: Committed, d: Delta, frames: seq<View>)
    requires CommittedHolds(trust, config, c) && LeadsTo(frames, c) && OnDelta(trust, config, c, d).Ok?
    ensures Advances(OnDelta(trust, config, c, d).value, frames)
  {
    hide ViewHolds, ValidatedDelta;
    DeltaHolds(trust, config.limits, c.welcome.value, c.registry.value, c.view.value, d);
  }

  lemma HandoffAdvances(trust: Trust, config: Config, c: Committed, s: HandoffStatus, frames: seq<View>)
    requires CommittedHolds(trust, config, c) && LeadsTo(frames, c) && OnHandoff(trust, c, s).Ok?
    ensures Advances(OnHandoff(trust, c, s).value, frames)
  {
    hide ViewHolds, InitialHandoff, HandoffProgress;
  }

  lemma CheckedAdvances(trust: Trust, config: Config, c: Committed, m: Message, frames: seq<View>)
    requires CommittedHolds(trust, config, c) && LeadsTo(frames, c) && Checked(trust, config, c, m).Ok?
    ensures Advances(Checked(trust, config, c, m).value, frames)
  {
    hide CommittedHolds, OnBaseline, OnDelta, OnHandoff;
    match m {
      case InterestBaseline(baseline) => BaselineAdvances(trust, config, c, baseline, frames);
      case InterestDelta(delta) => DeltaAdvances(trust, config, c, delta, frames);
      case Handoff(status) => HandoffAdvances(trust, config, c, status, frames);
      case _ =>
    }
  }

  /** What an accepted commit does to the history. */
  lemma CommitShape(trust: Trust, t: Trace, token: Token)
    requires CommitStep(trust, t.s, token).1.Ok?
    ensures Matches(t.s, token)
    ensures var transition, next := t.s.pending.value.transition, OnCommit(trust, t, token);
            && next.s == Advanced(t.s.(committed := transition.next, pending := None))
            && next.issued == t.issued && next.accepted == t.accepted + [token]
            && (if Acknowledges(transition) then
                  && next.frames == t.frames + [transition.next.view.value]
                  && |next.acknowledged| == |t.acknowledged| + 1
                    && next.acknowledged[..|t.acknowledged|] == t.acknowledged
                  && trust.acknowledge(AckOf(transition.next.view.value)) == Ok(next.acknowledged[|t.acknowledged|])
                else next.frames == t.frames && next.acknowledged == t.acknowledged)
  {}

  lemma CommitKeeps(trust: Trust, config: Config, t: Trace, token: Token)
    requires Inv(trust, config, t)
    ensures Inv(trust, config, OnCommit(trust, t, token))
  {
    if CommitStep(trust, t.s, token).1.Ok? {
      CommitShape(trust, t, token);
      var pending, next := t.s.pending.value, OnCommit(trust, t, token);
      hide Checked, CommittedHolds, LeadsTo, FramesOrdered, TokensOrdered, OnCommit, CommitStep, AllAcknowledged;
      CheckedHolds(trust, config, t.s.committed, pending.message);
      CommitKeepsFrames(trust, config, t, token);
      TokenAccepted(t, token, next);
    }
  }

  lemma {:induction false} CommitKeepsFrames(trust: Trust, config: Config, t: Trace, token: Token)
    requires Inv(trust, config, t) && CommitStep(trust, t.s, token).1.Ok?
    ensures var next := OnCommit(trust, t, token);
            LeadsTo(next.frames, next.s.committed) && FramesOrdered(next.frames) && AllAcknowledged(trust, next)
  {
    CommitShape(trust, t, token);
    var pending, next := t.s.pending.value, OnCommit(trust, t, token);
    hide Checked, CommittedHolds, LeadsTo, FramesOrdered, TokensOrdered, OnCommit, CommitStep, AllAcknowledged;
    CheckedAdvances(trust, config, t.s.committed, pending.message, t.frames);
    OneMoreAcknowledged(trust, t, next);
    if InstallsView(pending.transition) { FrameAppended(t.frames, pending.transition.next); }
  }

  lemma {:induction false} OneMoreAcknowledged(trust: Trust, t: Trace, next: Trace)
    requires AllAcknowledged(trust, t)
    requires if next.frames == t.frames then next.acknowledged == t.acknowledged
             else
               && |next.frames| == |t.frames| + 1 && next.frames[..|t.frames|] == t.frames
               && |next.acknowledged| == |t.acknowledged| + 1 && next.acknowledged[..|t.acknowledged|] == t.acknowledged
               && trust.acknowledge(AckOf(next.frames[|t.frames|])) == Ok(next.acknowledged[|t.acknowledged|])
    ensures AllAcknowledged(trust, next)
  {
    forall i | 0 <= i < |next.frames| ensures trust.acknowledge(AckOf(next.frames[i])) == Ok(next.acknowledged[i]) {
      if i < |t.frames| {
        assert next.frames != t.frames ==>
            next.frames[..|t.frames|][i] == t.frames[i] && next.acknowledged[..|t.frames|][i] == t.acknowledged[i];
      }
    }
  }

  lemma {:induction false} FrameAppended(frames: seq<View>, c: Committed)
    requires FramesOrdered(frames) && c.view.Some? && c.handoff.None?
    requires frames != [] ==>
        Before(frames[|frames| - 1], c.view.value) && ClockKept(frames[|frames| - 1], c.view.value)
    ensures FramesOrdered(frames + [c.view.value]) && LeadsTo(frames + [c.view.value], c)
  {
    forall i | 0 <= i < |frames| ensures Before(frames[i], c.view.value) {
      assert i == |frames| - 1 || Before(frames[i], frames[|frames| - 1]);
    }
  }

  lemma TokenAccepted(t: Trace, token: Token, next: Trace)
    requires Matches(t.s, token) && next.s.pending.None? && next.s.nextSequence == t.s.nextSequence
    requires next.issued == t.issued && next.accepted == t.accepted + [token]
    ensures |t.issued| <= U64_MAX && TokensOrdered(t) ==> TokensOrdered(next)
  {}

  lemma StageKeeps(trust: Trust, config: Config, t: Trace, frame: Frame)
    requires Inv(trust, config, t)
    ensures Inv(trust, config, OnEvent(trust, config, t, StageEvent(frame)))
  {
    hide Checked, CommittedHolds, LeadsTo, FramesOrdered;
  }

  lemma EventKeeps(trust: Trust, config: Config, t: Trace, event: Event)
    requires Inv(trust, config, t)
    ensures Inv(trust, config, OnEvent(trust, config, t, event))
  {
    hide Checked, Staged, OnCommit;
    match event {
      case StageEvent(frame) => StageKeeps(trust, config, t, frame);
      case CommitEvent(token) => CommitKeeps(trust, config, t, token);
      case DiscardEvent(token) =>
      case ResetEvent =>
    }
  }

  lemma {:induction false} RunKeeps(trust: Trust, config: Config, t: Trace, events: seq<Event>)
    requires Inv(trust, config, t)
    ensures Inv(trust, config, Run(trust, config, t, events))
    decreases |events|
  {
    hide Inv, OnEvent;
    if events != [] {
      EventKeeps(trust, config, t, events[0]);
      RunKeeps(trust, config, OnEvent(trust, config, t, events[0]), events[1..]);
    }
  }

  lemma StartHolds(trust: Trust, config: Config)
    ensures Inv(trust, config, START)
  {
    hide ViewHolds;
  }

  // ---- what every run satisfies ----------------------------------------------------------

  /** Since the last reset: committed baselines and deltas share one session, their epoch and
      delta sequence increase lexicographically, and so do the acknowledgements, one per frame;
      event sequence and tick fall back only into a handoff's destination. */
  lemma FrontierOrder(trust: Trust, config: Config, events: seq<Event>)
    ensures var t := Run(trust, config, START, events);
            && (forall i, j | 0 <= i < j < |t.frames| :: Before(t.frames[i], t.frames[j]))
            && (forall i | 0 < i < |t.frames| :: ClockKept(t.frames[i - 1], t.frames[i]))
            && |t.acknowledged| == |t.frames|
            && (forall i | 0 <= i < |t.frames| :: trust.acknowledge(AckOf(t.frames[i])) == Ok(t.acknowledged[i]))
  {
    StartHolds(trust, config);
    RunKeeps(trust, config, START, events);
    hide Run, PendingIsCurrent, CommittedHolds, LeadsTo, TokensOrdered, Before, ClockKept;
  }

  /** Once a baseline was committed, exactly one of a view and a handoff is present; before, neither. */
  lemma ViewOrHandoff(trust: Trust, config: Config, events: seq<Event>)
    ensures var t := Run(trust, config, START, events);
            var c := t.s.committed;
            if t.frames == [] then c.view.None? && c.handoff.None? else c.view.Some? <==> c.handoff.None?
  {
    StartHolds(trust, config);
    RunKeeps(trust, config, START, events);
    hide Run, PendingIsCurrent, CommittedHolds, FramesOrdered, TokensOrdered, AllAcknowledged;
  }

  /** In every run the committed view is ordered, bounded and carries its own hash; a player's
      overlay has referential integrity in it, and a spectator has none. */
  lemma CommittedViewsHold(trust: Trust, config: Config, events: seq<Event>)
    ensures var c := Run(trust, config, START, events).s.committed;
            c.view.Some? ==>
              var v := c.view.value;
              && PrivateLinkage.EntitiesOrdered(v.entities) && |v.entities| <= config.limits.maxEntities
              && trust.hashView(Material(v)) == Ok(v.viewHash)
              && (config.expectedRole.Player? ==>
                    v.actorPrivate.Some?
                    && PrivateLinkage.ReferentialIntegrity(config.expectedRole.playerId, v.actorPrivate.value,
                      v.entities))
              && (config.expectedRole.Spectator? ==> v.actorPrivate.None?)
  {
    StartHolds(trust, config);
    RunKeeps(trust, config, START, events);
    var c := Run(trust, config, START, events).s.committed;
    hide Run, PendingIsCurrent, LeadsTo, FramesOrdered, TokensOrdered, AllAcknowledged;
    if c.view.Some? {
      HeldViewsAreLinked(trust, config.limits, config.expectedRole, c.view.value);
    }
    hide PrivateLinkage.EntitiesOrdered, PrivateLinkage.PrivateOrdered, PrivateLinkage.ReferentialIntegrity, ValidHash,
         PrivateLinkage.LinkageOutcome;
  }

  /** No lost update: the pending transition was checked against the present committed state,
      and only a reset, or a commit whose transition was checked against the very
      state it replaces, changes the committed state. */
  lemma CommitsAreCurrent(trust: Trust, config: Config, events: seq<Event>, event: Event)
    ensures var before := Run(trust, config, START, events).s;
            before.pending.Some? ==>
              Checked(trust, config, before.committed, before.pending.value.message)
                == Ok(before.pending.value.transition)
    ensures var before := Run(trust, config, START, events).s;
            var after := OnEvent(trust, config, Run(trust, config, START, events), event).s;
            after.committed == before.committed
            || event.ResetEvent?
            || (event.CommitEvent? && Matches(before, event.token)
                && Checked(trust, config, before.committed, before.pending.value.message)
                   == Ok(Transition(before.pending.value.transition.kind, after.committed)))
  {
    StartHolds(trust, config);
    RunKeeps(trust, config, START, events);
    hide Run, Checked, CommittedHolds, LeadsTo, FramesOrdered, TokensOrdered, AllAcknowledged;
  }

  /** A refused stage leaves the committed state alone, and the pending one too unless a preparing
      handoff has cleared it. */
  lemma RefusedStage(trust: Trust, config: Config, s: State, frame: Frame)
    requires Staged(trust, config, s, frame).1.Err?
    ensures var after := Staged(trust, config, s, frame).0;
            && after.committed == s.committed && after.nextSequence == s.nextSequence
            && (if frame.Ok? && Supersedes(frame.value) then after.pending.None?
                else after == s)
  {
    hide Checked;
  }

  // ---- tokens ----------------------------------------------------------------------------

  /** In a run of at most 2^64 - 1 stagings every token is issued once and accepted at most once. */
  lemma TokensAreOneUse(trust: Trust, config: Config, events: seq<Event>)
    requires |Run(trust, config, START, events).issued| <= U64_MAX
    ensures var t := Run(trust, config, START, events);
            && (forall i, j | 0 <= i < j < |t.issued| :: t.issued[i] != t.issued[j])
            && (forall i, j | 0 <= i < j < |t.accepted| :: t.accepted[i] != t.accepted[j])
            && (forall i | 0 <= i < |t.accepted| :: t.accepted[i] in t.issued)
  {
    StartHolds(trust, config);
    RunKeeps(trust, config, START, events);
    hide Run, PendingIsCurrent, CommittedHolds, LeadsTo, FramesOrdered, AllAcknowledged;
  }

  /** An issued token that is not pending. */
  predicate Spent(t: Trace, token: Token) { token in t.issued && !Matches(t.s, token) }

  lemma {:induction false} IssuedGrows(trust: Trust, config: Config, t: Trace, events: seq<Event>)
    ensures |t.issued| <= |Run(trust, config, t, events).issued|
    decreases |events|
  {
    hide Staged;
    if events != [] { IssuedGrows(trust, config, OnEvent(trust, config, t, events[0]), events[1..]); }
  }

  lemma EventKeepsSpent(trust: Trust, config: Config, t: Trace, event: Event, token: Token)
    requires Inv(trust, config, t) && Spent(t, token)
    requires |OnEvent(trust, config, t, event).issued| <= U64_MAX
    ensures Spent(OnEvent(trust, config, t, event), token)
  {
    hide Checked, CommittedHolds, LeadsTo, FramesOrdered, AllAcknowledged;
    var i :| 0 <= i < |t.issued| && t.issued[i] == token;
    assert t.issued[i].sequence == i + 1;
  }

  /** A token that was accepted, discarded, reset or superseded is refused for good. */
  lemma {:induction false} SpentForGood(trust: Trust, config: Config, t: Trace, events: seq<Event>, token: Token)
    requires Inv(trust, config, t) && Spent(t, token)
    requires |Run(trust, config, t, events).issued| <= U64_MAX
    ensures var s := Run(trust, config, t, events).s;
            CommitStep(trust, s, token) == (s, Err(InvalidStageToken))
              && DiscardStep(s, token) == (s, Fail(InvalidStageToken))
    decreases |events|
  {
    if events != [] {
      hide Inv, OnEvent, Spent;
      var next := OnEvent(trust, config, t, events[0]);
      IssuedGrows(trust, config, next, events[1..]);
      EventKeepsSpent(trust, config, t, events[0], token);
      EventKeeps(trust, config, t, events[0]);
      SpentForGood(trust, config, next, events[1..], token);
    }
  }

  /** A preparing handoff spends the pending token, whether or not it is itself accepted; so do
      commit, discard and reset. */
  lemma PendingIsSpent(trust: Trust, config: Config, t: Trace, event: Event)
    requires Inv(trust, config, t) && |t.issued| <= U64_MAX && t.s.pending.Some?
    requires match event
             case StageEvent(frame) => frame.Ok? && Supersedes(frame.value)
             case CommitEvent(token) => CommitStep(trust, t.s, token).1.Ok?
             case DiscardEvent(token) => DiscardStep(t.s, token).1.Pass?
             case ResetEvent => true
    ensures Spent(OnEvent(trust, config, t, event), t.s.pending.value.token)
  {
    hide Checked, CommittedHolds, LeadsTo, FramesOrdered, AllAcknowledged;
  }

  // ---- handoffs --------------------------------------------------------------------------

  /** The handoff is still open: no view is presentable, and its identity is unchanged. */
  predicate Open(h: HandoffBinding, t: Trace, frames: seq<View>) {
    && t.frames == frames && t.s.committed.view.None? && t.s.committed.handoff.Some?
    && t.s.committed.handoff.value == h.(status := h.status.(phase := t.s.committed.handoff.value.status.phase))
  }

  /** Its destination arrived: the next frame names the transfer and is one epoch up. */
  predicate Arrived(h: HandoffBinding, t: Trace, frames: seq<View>) {
    && |frames| < |t.frames| && frames <= t.frames
    && var d := t.frames[|frames|];
       && d.transferLink == Some(TransferLink(h.status.transferId, h.status.destination, h.status.placementGeneration))
       && d.sessionEpoch == h.sessionEpoch && d.interestEpoch == h.priorInterestEpoch + 1
  }

  lemma OpenStep(trust: Trust, config: Config, t: Trace, event: Event, h: HandoffBinding, frames: seq<View>)
    requires Inv(trust, config, t) && !event.ResetEvent? && Open(h, t, frames)
    ensures var next := OnEvent(trust, config, t, event);
            Open(h, next, frames) || Arrived(h, next, frames)
  {
    hide CommittedHolds, LeadsTo, FramesOrdered, AllAcknowledged, TokensOrdered, ValidatedBaseline, ValidatedDelta,
        InitialHandoff;
    if event.CommitEvent? && Matches(t.s, event.token) {
      OpenCommit(trust, config, t.s.committed, t.s.pending.value.message, h);
      hide Checked;
    } else if event.StageEvent? {
      hide Checked;
    }
  }

  lemma OpenCommit(trust: Trust, config: Config, c: Committed, m: Message, h: HandoffBinding)
    requires c.view.None? && c.handoff.Some?
        && c.handoff.value == h.(status := h.status.(phase := c.handoff.value.status.phase))
    requires Checked(trust, config, c, m).Ok?
    ensures var t := Checked(trust, config, c, m).value;
            if InstallsView(t) then
              && t.next.view.Some?
              && var d := t.next.view.value;
                 && d.transferLink
                   == Some(TransferLink(h.status.transferId, h.status.destination, h.status.placementGeneration))
                 && d.sessionEpoch == h.sessionEpoch && d.interestEpoch == h.priorInterestEpoch + 1
            else
              && t.next.view.None? && t.next.handoff.Some?
              && t.next.handoff.value == h.(status := h.status.(phase := t.next.handoff.value.status.phase))
  {
    hide ValidatedBaseline, ValidatedDelta, InitialHandoff;
  }

  lemma ArrivedStep(trust: Trust, config: Config, t: Trace, event: Event, h: HandoffBinding, frames: seq<View>)
    requires !event.ResetEvent? && Arrived(h, t, frames)
    ensures Arrived(h, OnEvent(trust, config, t, event), frames)
  {
    hide Checked, Staged, CommitStep;
  }

  /** While a handoff is open no source frame can come back: until a reset, the next view to be
      committed is the destination baseline that names this very transfer, one epoch up in the
      same session. */
  lemma {:induction false} HandoffEndsAtDestination(
    trust: Trust, config: Config, t: Trace, events: seq<Event>, h: HandoffBinding, frames: seq<View>)
    requires Inv(trust, config, t) && forall i | 0 <= i < |events| :: !events[i].ResetEvent?
    requires Open(h, t, frames) || Arrived(h, t, frames)
    ensures var end := Run(trust, config, t, events);
            Open(h, end, frames) || Arrived(h, end, frames)
    decreases |events|
  {
    if events != [] {
      hide Inv, OnEvent, Open, Arrived;
      var next := OnEvent(trust, config, t, events[0]);
      EventKeeps(trust, config, t, events[0]);
      if Open(h, t, frames) { OpenStep(trust, config, t, events[0], h, frames); }
      if Arrived(h, t, frames) { ArrivedStep(trust, config, t, events[0], h, frames); }
      HandoffEndsAtDestination(trust, config, next, events[1..], h, frames);
    }
  }
}
