/** The worker's bridge between the socket and the staged verifier: a bounded queue feeding one
    slot that is staged, presented, committed and installed. The verifier's answers are arbitrary
    functions of how many times it was asked. */
module FrameBridge {
  import opened Prelude

  const MAX_QUEUED_FRAMES: nat := 16
  const MAX_QUEUED_BYTES: nat := 16 * 1024 * 1024

  /** A decoded answer to `stage`: unreadable, refused with a code, accepted but incomplete, or
      accepted. */
  datatype StageReply = Unreadable | Refused(code: string) | Incomplete
      | Staged(stageId: string, kind: string, messageJson: string)

  /** A decoded answer to `commit`; the acknowledgement is absent for frames that carry none. */
  datatype CommitReply = CommitFailed(code: string) | CommitOk(stageId: string, acknowledgement: Option<string>)

  datatype DiscardReply = DiscardFailed(code: string) | DiscardOk

  /** The verifier: its answer to the n-th call of each kind. */
  datatype Verifier = Verifier(stage: nat -> StageReply, commit: nat -> CommitReply, discard: nat -> DiscardReply)

  datatype Queued = Queued(frame: string, bytes: nat)

  datatype PendingPhase = AwaitPresentation | AwaitInstall

  datatype Pending = Pending(frameId: nat, stageId: string, phase: PendingPhase, acknowledgement: Option<string>)

  datatype Outgoing = Acknowledgement(json: string) | RequestSnapshot | ClientMessage(json: string)

  datatype Post = PrepareFrame(frameId: nat, kind: string, messageJson: string) | InstallFrame(frameId: nat)
      | Failed(code: string)

  /** What the collaborators have seen, in order. */
  datatype World = World(staged: seq<string>, commits: nat, discards: nat, sent: seq<Outgoing>, posted: seq<Post>)

  /** What became of a frame handed to the verifier; a committed one names the call to `commit`
      that was answered for it. */
  datatype Fate =
    | Rejected
    | Recovered
    | Waiting
    | Committed(call: nat, acknowledgement: Option<string>)
    | Installed(call: nat, acknowledgement: Option<string>)

  datatype State = State(
    queue: seq<Queued>, queuedBytes: int, pending: Option<Pending>, nextFrameId: nat, recoveryRequested: bool,
      closed: bool,
    world: World, received: seq<string>, fates: seq<Fate>)

  const INITIAL: State := State([], 0, None, 1, false, false, World([], 0, 0, [], []), [], [])

  // ---- the specification -----------------------------------------------------------------

  function Fail(s: State, code: string): State {
    if s.closed then s
    else s.(closed := true, world := s.world.(posted := s.world.posted + [Failed(code)]))
  }

  function FailProtocol(s: State): State { Fail(s, "presentation_sequence") }

  predicate Matches(s: State, frameId: nat, phase: PendingPhase) {
    s.pending.Some? && s.pending.value.frameId == frameId && s.pending.value.phase == phase
  }

  function Send(s: State, message: Outgoing): State {
    s.(world := s.world.(sent := s.world.sent + [message]))
  }

  /** The head of the queue handed to the verifier. */
  function Taken(s: State, fate: Fate): State
    requires s.queue != []
  {
    s.(queue := s.queue[1..], queuedBytes := s.queuedBytes - s.queue[0].bytes,
       world := s.world.(staged := s.world.staged + [s.queue[0].frame]), fates := s.fates + [fate])
  }

  function Drain(v: Verifier, s: State): State
    decreases if s.recoveryRequested then 0 else 1
  {
    if s.closed || s.pending.Some? || s.queue == [] then s
    else match v.stage(|s.world.staged|)
      case Staged(stageId, kind, messageJson) =>
        var t := Taken(s, Waiting);
        t.(pending := Some(Pending(s.nextFrameId, stageId, AwaitPresentation, None)), nextFrameId := s.nextFrameId + 1,
           world := t.world.(posted := t.world.posted + [PrepareFrame(s.nextFrameId, kind, messageJson)]))
      case Refused(code) =>
        if code == "frontier_mismatch" && !s.recoveryRequested then
          Drain(v, Send(Taken(s, Recovered).(recoveryRequested := true), RequestSnapshot))
        else Fail(Taken(s, Rejected), code)
      case Incomplete => Fail(Taken(s, Rejected), "verifier_response_invalid")
      case Unreadable => Fail(Taken(s, Rejected), "verifier_response_invalid")
  }

  lemma DrainStaged(v: Verifier, s: State)
    requires !s.closed && s.pending.None? && s.queue != [] && v.stage(|s.world.staged|).Staged?
    ensures var reply, t := v.stage(|s.world.staged|), Taken(s, Waiting);
            Drain(v, s) == t.(pending := Some(Pending(s.nextFrameId, reply.stageId, AwaitPresentation, None)),
              nextFrameId := s.nextFrameId + 1,
                              world := t.world.(posted := t.world.posted
                                + [PrepareFrame(s.nextFrameId, reply.kind, reply.messageJson)]))
  {}

  function Receive(v: Verifier, s: State, frame: Option<Queued>): State {
    if s.closed then s
    else if frame.None? then Fail(s, "binary_frame")
    else if |s.queue| >= MAX_QUEUED_FRAMES || s.queuedBytes + frame.value.bytes > MAX_QUEUED_BYTES
      then Fail(s, "frame_queue_limit")
    else Drain(v, s.(queue := s.queue + [frame.value], queuedBytes := s.queuedBytes + frame.value.bytes,
                     received := s.received + [frame.value.frame]))
  }

  function Prepared(v: Verifier, s: State, frameId: nat): State {
    if !Matches(s, frameId, AwaitPresentation) then FailProtocol(s)
    else
      var t := s.(world := s.world.(commits := s.world.commits + 1));
      match v.commit(s.world.commits)
      case CommitFailed(code) => Fail(t, code)
      case CommitOk(stageId, acknowledgement) =>
        if stageId != s.pending.value.stageId then Fail(t, "commit_failure")
        else t.(pending := Some(s.pending.value.(phase := AwaitInstall, acknowledgement := acknowledgement)),
                world := t.world.(posted := t.world.posted + [InstallFrame(frameId)]),
                fates := Settle(s.fates, Committed(s.world.commits, acknowledgement)))
  }

  /** The last fate replaced. */
  function Settle(fates: seq<Fate>, fate: Fate): seq<Fate> {
    fates[..if fates == [] then 0 else |fates| - 1] + [fate]
  }

  /** The call to `commit` that was answered for the frame in the slot. */
  function LastCall(fates: seq<Fate>): nat {
    if fates != [] && fates[|fates| - 1].Committed? then fates[|fates| - 1].call else 0
  }

  /** The slot emptied, its acknowledgement sent if there is one. */
  function Released(s: State): State
    requires s.pending.Some?
  {
    var acknowledgement := s.pending.value.acknowledgement;
    s.(pending := None, fates := Settle(s.fates, Installed(LastCall(s.fates), acknowledgement)),
       world := if acknowledgement.None? then s.world
         else s.world.(sent := s.world.sent + [Acknowledgement(acknowledgement.value)]))
  }

  function InstalledStep(v: Verifier, s: State, frameId: nat): State {
    if !Matches(s, frameId, AwaitInstall) then FailProtocol(s) else Drain(v, Released(s))
  }

  function RejectedStep(v: Verifier, s: State, frameId: nat): State {
    if s.pending.None? || s.pending.value.frameId != frameId then FailProtocol(s)
    else if s.pending.value.phase.AwaitPresentation? then
      var t := s.(world := s.world.(discards := s.world.discards + 1));
      match v.discard(s.world.discards)
      case DiscardFailed(code) => Fail(t, code)
      case DiscardOk => Fail(t, "presentation_rejected")
    else Fail(s, "presentation_rejected")
  }

  function SendStep(s: State, message: Option<string>): State {
    if s.closed || message.None? then s else Send(s, ClientMessage(message.value))
  }

  datatype Event =
    | OnFrame(frame: Option<Queued>)
    | OnPrepared(frameId: nat)
    | OnInstalled(frameId: nat)
    | OnRejected(frameId: nat)
    | OnClientMessage(message: Option<string>)

  function Step(v: Verifier, s: State, event: Event): State {
    match event
    case OnFrame(frame) => Receive(v, s, frame)
    case OnPrepared(frameId) => Prepared(v, s, frameId)
    case OnInstalled(frameId) => InstalledStep(v, s, frameId)
    case OnRejected(frameId) => RejectedStep(v, s, frameId)
    case OnClientMessage(message) => SendStep(s, message)
  }

  function Run(v: Verifier, s: State, events: seq<Event>): State
    decreases |events|
  {
    if events == [] then s else Run(v, Step(v, s, events[0]), events[1..])
  }

  // ---- what holds in every run -----------------------------------------------------------

  function Frames(queue: seq<Queued>): seq<string> {
    if queue == [] then [] else [queue[0].frame] + Frames(queue[1..])
  }

  function TotalBytes(queue: seq<Queued>): nat {
    if queue == [] then 0 else queue[0].bytes + TotalBytes(queue[1..])
  }

  /** The acknowledgements of installed frames, in staging order. */
  function InstalledAcks(fates: seq<Fate>): seq<string> {
    if fates == [] then []
    else
      var last := fates[|fates| - 1];
      InstalledAcks(fates[..|fates| - 1]) + (if last.Installed? && last.acknowledgement.Some?
        then [last.acknowledgement.value] else [])
  }

  function SentAcks(sent: seq<Outgoing>): seq<string> {
    if sent == [] then []
    else
      var last := sent[|sent| - 1];
      SentAcks(sent[..|sent| - 1]) + (if last.Acknowledgement? then [last.json] else [])
  }

  function Snapshots(sent: seq<Outgoing>): nat {
    if sent == [] then 0 else Snapshots(sent[..|sent| - 1]) + (if sent[|sent| - 1].RequestSnapshot? then 1 else 0)
  }

  predicate Settled(f: Fate) { f.Rejected? || f.Recovered? || f.Installed? }

  /** The fate of the frame in the slot. */
  predicate InSlot(p: Pending, f: Fate) {
    if p.phase.AwaitPresentation? then f.Waiting? else f.Committed? && f.acknowledgement == p.acknowledgement
  }

  /** What a fate says of the verifier's replies: the i-th frame got the i-th reply to `stage`, and
      a committed frame the acknowledgement that the reply to its own call to `commit` carried. */
  predicate FateMeans(v: Verifier, i: nat, f: Fate) {
    match f
    case Rejected => !v.stage(i).Staged?
    case Recovered => v.stage(i) == Refused("frontier_mismatch")
    case Waiting => v.stage(i).Staged?
    case Committed(call, acknowledgement) =>
      v.stage(i).Staged? && v.commit(call) == CommitOk(v.stage(i).stageId, acknowledgement)
    case Installed(call, acknowledgement) =>
      v.stage(i).Staged? && v.commit(call) == CommitOk(v.stage(i).stageId, acknowledgement)
  }

  predicate HasCall(f: Fate) { f.Committed? || f.Installed? }

  /** Every fate is what the verifier replied, each committed frame with a call of its own, in order. */
  predicate Replies(v: Verifier, s: State) {
    && (forall i | 0 <= i < |s.fates| :: FateMeans(v, i, s.fates[i]))
    && (forall i | 0 <= i < |s.fates| && HasCall(s.fates[i]) :: s.fates[i].call < s.world.commits)
    && (forall i, j | 0 <= i < j < |s.fates| && HasCall(s.fates[i]) && HasCall(s.fates[j]) ::
      s.fates[i].call < s.fates[j].call)
    && (s.pending.Some? && s.fates != [] ==>
          v.stage(|s.fates| - 1).Staged? && s.pending.value.stageId == v.stage(|s.fates| - 1).stageId)
  }

  /** Arrival order and the queue's bounds. */
  predicate Flow(s: State) {
    && s.received == s.world.staged + Frames(s.queue)
    && |s.fates| == |s.world.staged|
    && s.queuedBytes == TotalBytes(s.queue) <= MAX_QUEUED_BYTES
    && |s.queue| <= MAX_QUEUED_FRAMES
  }

  /** Only the last staged frame may be unsettled, and then it is the one in the slot. */
  predicate Slot(s: State) {
    && (forall i | 0 <= i < |s.fates| - 1 :: Settled(s.fates[i]))
    && (if s.pending.Some? then s.fates != [] && InSlot(s.pending.value, s.fates[|s.fates| - 1])
        else s.fates == [] || Settled(s.fates[|s.fates| - 1]))
    && (forall i | 0 <= i < |s.fates| && s.fates[i].Rejected? :: s.closed)
  }

  predicate Wires(s: State) {
    && SentAcks(s.world.sent) == InstalledAcks(s.fates)
    && Snapshots(s.world.sent) == (if s.recoveryRequested then 1 else 0)
  }

  /** What holds between an edit and the drain that follows it. */
  predicate BeforeDrain(s: State) { Flow(s) && Slot(s) && Wires(s) }

  predicate Inv(s: State) {
    && BeforeDrain(s)
    && (!s.closed && s.queue != [] ==> s.pending.Some?)
  }

  lemma {:induction false} FramesAppend(queue: seq<Queued>, q: Queued)
    ensures Frames(queue + [q]) == Frames(queue) + [q.frame]
    ensures TotalBytes(queue + [q]) == TotalBytes(queue) + q.bytes
  {
    if queue == [] {
      assert [q][1..] == [];
    } else {
      assert (queue + [q])[1..] == queue[1..] + [q];
      FramesAppend(queue[1..], q);
    }
  }

  lemma {:induction false} AcksAppend(sent: seq<Outgoing>, message: Outgoing)
    ensures SentAcks(sent + [message]) == SentAcks(sent) + (if message.Acknowledgement? then [message.json] else [])
    ensures Snapshots(sent + [message]) == Snapshots(sent) + (if message.RequestSnapshot? then 1 else 0)
  {
    assert (sent + [message])[..|sent|] == sent;
  }

  lemma {:induction false} FateAppend(fates: seq<Fate>, fate: Fate)
    ensures InstalledAcks(fates + [fate])
            == InstalledAcks(fates) + (if fate.Installed? && fate.acknowledgement.Some?
              then [fate.acknowledgement.value] else [])
  {
    assert (fates + [fate])[..|fates|] == fates;
  }

  lemma TakenKeeps(s: State, fate: Fate)
    requires BeforeDrain(s) && s.queue != [] && s.pending.None? && !s.closed && !fate.Installed?
    ensures var t := Taken(s, fate);
            && Flow(t) && Wires(t)
            && t.fates == s.fates + [fate]
            && (forall i | 0 <= i < |s.fates| :: Settled(s.fates[i]) && !s.fates[i].Rejected?)
  {
    FateAppend(s.fates, fate);
    hide SentAcks, InstalledAcks, Snapshots;
  }

  lemma FailKeeps(s: State, code: string)
    requires Flow(s) && Wires(s)
    requires forall i | 0 <= i < |s.fates| - 1 :: Settled(s.fates[i])
    requires if s.pending.Some? then s.fates != [] && InSlot(s.pending.value, s.fates[|s.fates| - 1])
             else s.fates == [] || Settled(s.fates[|s.fates| - 1])
    ensures Inv(Fail(s, code)) && Fail(s, code).closed
  {
    hide SentAcks, InstalledAcks, Snapshots, Frames, TotalBytes;
  }

  lemma {:induction false} DrainKeeps(v: Verifier, s: State)
    requires BeforeDrain(s)
    ensures Inv(Drain(v, s))
    decreases if s.recoveryRequested then 0 else 1
  {
    hide SentAcks, InstalledAcks, Snapshots, Frames, TotalBytes, Taken, Fail;
    if !s.closed && s.pending.None? && s.queue != [] {
      match v.stage(|s.world.staged|) {
        case Staged(stageId, kind, messageJson) =>
          TakenKeeps(s, Waiting);
          var d := Drain(v, s);
          assert d.pending == Some(Pending(s.nextFrameId, stageId, AwaitPresentation, None));
          assert Slot(d);
        case Refused(code) =>
          if code == "frontier_mismatch" && !s.recoveryRequested {
            RecoverKeeps(s);
            DrainKeeps(v, Send(Taken(s, Recovered).(recoveryRequested := true), RequestSnapshot));
          } else {
            RejectKeeps(s, code);
          }
        case Incomplete => RejectKeeps(s, "verifier_response_invalid");
        case Unreadable => RejectKeeps(s, "verifier_response_invalid");
      }
    }
  }

  lemma RecoverKeeps(s: State)
    requires BeforeDrain(s) && s.queue != [] && s.pending.None? && !s.closed && !s.recoveryRequested
    ensures BeforeDrain(Send(Taken(s, Recovered).(recoveryRequested := true), RequestSnapshot))
  {
    TakenKeeps(s, Recovered);
    AcksAppend(s.world.sent, RequestSnapshot);
    hide SentAcks, InstalledAcks, Snapshots, Frames, TotalBytes;
  }

  lemma RejectKeeps(s: State, code: string)
    requires BeforeDrain(s) && s.queue != [] && s.pending.None? && !s.closed
    ensures Inv(Fail(Taken(s, Rejected), code))
  {
    TakenKeeps(s, Rejected);
    hide SentAcks, InstalledAcks, Snapshots, Frames, TotalBytes, Fail;
    FailKeeps(Taken(s, Rejected), code);
  }

  lemma StepKeeps(v: Verifier, s: State, event: Event)
    requires Inv(s)
    ensures Inv(Step(v, s, event))
  {
    hide Drain, SentAcks, InstalledAcks, Snapshots, Frames, TotalBytes, Flow, Slot, Wires, Fail, Prepared,
        InstalledStep;
    match event {
      case OnFrame(frame) => ReceiveKeeps(v, s, frame);
      case OnPrepared(frameId) => PreparedKeeps(v, s, frameId);
      case OnInstalled(frameId) => InstalledKeeps(v, s, frameId);
      case OnRejected(frameId) => RejectedKeeps(v, s, frameId);
      case OnClientMessage(message) => SendKeeps(s, message);
    }
  }

  lemma ReceiveKeeps(v: Verifier, s: State, frame: Option<Queued>)
    requires Inv(s)
    ensures Inv(Receive(v, s, frame))
  {
    hide Drain, SentAcks, InstalledAcks, Snapshots, Frames, TotalBytes, Fail;
    FailKeeps(s, "binary_frame");
    FailKeeps(s, "frame_queue_limit");
    if !s.closed && frame.Some? && |s.queue| < MAX_QUEUED_FRAMES
      && s.queuedBytes + frame.value.bytes <= MAX_QUEUED_BYTES {
      FramesAppend(s.queue, frame.value);
      DrainKeeps(v, s.(queue := s.queue + [frame.value], queuedBytes := s.queuedBytes + frame.value.bytes,
                       received := s.received + [frame.value.frame]));
    }
  }

  lemma LastFate(s: State)
    requires Inv(s) && s.pending.Some?
    ensures s.fates != [] && InstalledAcks(s.fates) == InstalledAcks(s.fates[..|s.fates| - 1])
  {}

  lemma PreparedKeeps(v: Verifier, s: State, frameId: nat)
    requires Inv(s)
    ensures Inv(Prepared(v, s, frameId))
  {
    hide SentAcks, Snapshots, Frames, TotalBytes, Fail, InstalledAcks;
    FailKeeps(s, "presentation_sequence");
    if Matches(s, frameId, AwaitPresentation) {
      var t := s.(world := s.world.(commits := s.world.commits + 1));
      match v.commit(s.world.commits) {
        case CommitFailed(code) => FailKeeps(t, code);
        case CommitOk(stageId, acknowledgement) =>
          FailKeeps(t, "commit_failure");
          if stageId == s.pending.value.stageId { CommittedKeeps(v, s, frameId, acknowledgement); }
      }
    }
  }

  lemma CommittedKeeps(v: Verifier, s: State, frameId: nat, acknowledgement: Option<string>)
    requires Inv(s) && Matches(s, frameId, AwaitPresentation)
    requires v.commit(s.world.commits) == CommitOk(s.pending.value.stageId, acknowledgement)
    ensures Inv(Prepared(v, s, frameId))
  {
    LastFate(s);
    hide SentAcks, Snapshots, Frames, TotalBytes, Fail, InstalledAcks;
    FateAppend(s.fates[..|s.fates| - 1], Committed(s.world.commits, acknowledgement));
  }

  lemma ReleasedKeeps(s: State)
    requires Inv(s) && s.pending.Some? && s.pending.value.phase.AwaitInstall?
    ensures BeforeDrain(Released(s))
  {
    LastFate(s);
    hide SentAcks, Snapshots, Frames, TotalBytes, InstalledAcks;
    var a, t := s.pending.value.acknowledgement, Released(s);
    FateAppend(s.fates[..|s.fates| - 1], Installed(LastCall(s.fates), a));
    if a.Some? { AcksAppend(s.world.sent, Acknowledgement(a.value)); }
    assert Flow(t) && Slot(t);
    hide Flow, Slot, LastCall;
    assert Wires(t);
  }

  lemma InstalledKeeps(v: Verifier, s: State, frameId: nat)
    requires Inv(s)
    ensures Inv(InstalledStep(v, s, frameId))
  {
    hide SentAcks, Snapshots, Frames, TotalBytes, Fail, InstalledAcks, Drain, Released;
    FailKeeps(s, "presentation_sequence");
    if Matches(s, frameId, AwaitInstall) {
      ReleasedKeeps(s);
      DrainKeeps(v, Released(s));
    }
  }

  lemma RejectedKeeps(v: Verifier, s: State, frameId: nat)
    requires Inv(s)
    ensures Inv(RejectedStep(v, s, frameId))
  {
    hide SentAcks, Snapshots, Frames, TotalBytes, Fail, InstalledAcks;
    FailKeeps(s, "presentation_sequence");
    FailKeeps(s, "presentation_rejected");
    var t := s.(world := s.world.(discards := s.world.discards + 1));
    FailKeeps(t, "presentation_rejected");
    match v.discard(s.world.discards) {
      case DiscardFailed(code) => FailKeeps(t, code);
      case DiscardOk =>
    }
  }

  lemma SendKeeps(s: State, message: Option<string>)
    requires Inv(s)
    ensures Inv(SendStep(s, message))
  {
    if message.Some? { AcksAppend(s.world.sent, ClientMessage(message.value)); }
    hide SentAcks, Snapshots, Frames, TotalBytes, InstalledAcks;
  }

  lemma {:induction false} RunKeeps(v: Verifier, s: State, events: seq<Event>)
    requires Inv(s)
    ensures Inv(Run(v, s, events))
    decreases |events|
  {
    hide Inv, Step;
    if events != [] {
      StepKeeps(v, s, events[0]);
      RunKeeps(v, Step(v, s, events[0]), events[1..]);
    }
  }

  // ---- what the verifier replied ---------------------------------------------------------

  lemma FailReplies(v: Verifier, s: State, code: string)
    requires Replies(v, s)
    ensures Replies(v, Fail(s, code))
  {}

  lemma TakenReplies(v: Verifier, s: State, fate: Fate)
    requires Replies(v, s) && s.queue != [] && s.pending.None? && !HasCall(fate) && FateMeans(v, |s.fates|, fate)
    ensures Replies(v, Taken(s, fate))
  {}

  lemma {:induction false} DrainReplies(v: Verifier, s: State)
    requires BeforeDrain(s) && Replies(v, s)
    ensures Replies(v, Drain(v, s))
    decreases if s.recoveryRequested then 0 else 1
  {
    hide SentAcks, InstalledAcks, Snapshots, Frames, TotalBytes, Fail, Replies, Wires;
    if !s.closed && s.pending.None? && s.queue != [] {
      match v.stage(|s.world.staged|) {
        case Staged(stageId, kind, messageJson) =>
          TakenReplies(v, s, Waiting);
          SlotFilled(v, s, Taken(s, Waiting), Drain(v, s));
        case Refused(code) =>
          if code == "frontier_mismatch" && !s.recoveryRequested {
            TakenReplies(v, s, Recovered);
            RecoverKeeps(s);
            var t := Send(Taken(s, Recovered).(recoveryRequested := true), RequestSnapshot);
            SameReplies(v, Taken(s, Recovered), t);
            DrainReplies(v, t);
          } else {
            TakenReplies(v, s, Rejected);
            FailReplies(v, Taken(s, Rejected), code);
          }
        case Incomplete =>
          TakenReplies(v, s, Rejected);
          FailReplies(v, Taken(s, Rejected), "verifier_response_invalid");
        case Unreadable =>
          TakenReplies(v, s, Rejected);
          FailReplies(v, Taken(s, Rejected), "verifier_response_invalid");
      }
    }
  }

  lemma SameReplies(v: Verifier, s: State, t: State)
    requires Replies(v, s) && t.fates == s.fates && t.pending == s.pending && t.world.commits >= s.world.commits
    ensures Replies(v, t)
  {}

  lemma SlotFilled(v: Verifier, s: State, t: State, u: State)
    requires Replies(v, t) && t.fates == s.fates + [Waiting] && u.fates == t.fates && u.world.commits == t.world.commits
    requires v.stage(|s.fates|).Staged? && u.pending.Some? && u.pending.value.stageId == v.stage(|s.fates|).stageId
    ensures Replies(v, u)
  {}

  lemma CommittedReplies(v: Verifier, s: State, frameId: nat, acknowledgement: Option<string>)
    requires Inv(s) && Replies(v, s) && Matches(s, frameId, AwaitPresentation)
    requires v.commit(s.world.commits) == CommitOk(s.pending.value.stageId, acknowledgement)
    ensures Replies(v, Prepared(v, s, frameId))
  {
    hide SentAcks, Snapshots, Frames, TotalBytes, InstalledAcks;
  }

  lemma ReleasedReplies(v: Verifier, s: State)
    requires Inv(s) && Replies(v, s) && s.pending.Some? && s.pending.value.phase.AwaitInstall?
    ensures Replies(v, Released(s))
  {
    hide SentAcks, Snapshots, Frames, TotalBytes, InstalledAcks;
  }

  lemma StepReplies(v: Verifier, s: State, event: Event)
    requires Inv(s) && Replies(v, s)
    ensures Replies(v, Step(v, s, event))
  {
    hide Drain, SentAcks, InstalledAcks, Snapshots, Frames, TotalBytes, Fail, Released, Replies, Slot, Wires;
    match event {
      case OnFrame(frame) =>
        FailReplies(v, s, "binary_frame");
        FailReplies(v, s, "frame_queue_limit");
        if !s.closed && frame.Some? && |s.queue| < MAX_QUEUED_FRAMES
          && s.queuedBytes + frame.value.bytes <= MAX_QUEUED_BYTES {
          var t := s.(queue := s.queue + [frame.value], queuedBytes := s.queuedBytes + frame.value.bytes,
                      received := s.received + [frame.value.frame]);
          FramesAppend(s.queue, frame.value);
          SameReplies(v, s, t);
          EnqueuedHolds(s, t);
          DrainReplies(v, t);
        }
      case OnPrepared(frameId) =>
        FailReplies(v, s, "presentation_sequence");
        if Matches(s, frameId, AwaitPresentation) {
          var t := s.(world := s.world.(commits := s.world.commits + 1));
          SameReplies(v, s, t);
          match v.commit(s.world.commits) {
            case CommitFailed(code) => FailReplies(v, t, code);
            case CommitOk(stageId, acknowledgement) =>
              FailReplies(v, t, "commit_failure");
              if stageId == s.pending.value.stageId { CommittedReplies(v, s, frameId, acknowledgement); }
          }
        }
      case OnInstalled(frameId) =>
        FailReplies(v, s, "presentation_sequence");
        if Matches(s, frameId, AwaitInstall) {
          ReleasedReplies(v, s);
          ReleasedKeeps(s);
          DrainReplies(v, Released(s));
        }
      case OnRejected(frameId) =>
        FailReplies(v, s, "presentation_sequence");
        FailReplies(v, s, "presentation_rejected");
        var t := s.(world := s.world.(discards := s.world.discards + 1));
        SameReplies(v, s, t);
        FailReplies(v, t, "presentation_rejected");
        match v.discard(s.world.discards) {
          case DiscardFailed(code) => FailReplies(v, t, code);
          case DiscardOk =>
        }
      case OnClientMessage(message) => SameReplies(v, s, SendStep(s, message));
    }
  }

  /** A frame enqueued within the limits leaves everything ready to drain. */
  lemma EnqueuedHolds(s: State, t: State)
    requires Inv(s) && t == s.(queue := t.queue, queuedBytes := t.queuedBytes, received := t.received)
    requires t.received == t.world.staged + Frames(t.queue) && t.queuedBytes == TotalBytes(t.queue) <= MAX_QUEUED_BYTES
    requires |t.queue| <= MAX_QUEUED_FRAMES
    ensures BeforeDrain(t)
  {
    hide SentAcks, InstalledAcks, Snapshots, Frames, TotalBytes;
  }

  lemma {:induction false} RunReplies(v: Verifier, s: State, events: seq<Event>)
    requires Inv(s) && Replies(v, s)
    ensures Replies(v, Run(v, s, events))
    decreases |events|
  {
    hide Inv, Step, Replies;
    if events != [] {
      StepKeeps(v, s, events[0]);
      StepReplies(v, s, events[0]);
      RunReplies(v, Step(v, s, events[0]), events[1..]);
    }
  }

  /** In every run: frames reach the verifier in arrival order and none is skipped; the queue's
      byte count is exact and both limits hold; every frame but the last is settled and an unsettled
      last one is the frame in the slot; each frame's fate is what the verifier replied, a committed
      one carrying the acknowledgement of its own commit, the commits in staging order; the
      acknowledgements sent are exactly those of installed frames, in staging order; a snapshot is
      requested at most once; while the bridge is open a frame waits only behind one in the slot. */
  lemma BridgeOrder(v: Verifier, events: seq<Event>)
    ensures var s := Run(v, INITIAL, events);
            && s.received == s.world.staged + Frames(s.queue)
            && s.queuedBytes == TotalBytes(s.queue) <= MAX_QUEUED_BYTES && |s.queue| <= MAX_QUEUED_FRAMES
            && |s.fates| == |s.world.staged| && Slot(s) && Replies(v, s)
            && SentAcks(s.world.sent) == InstalledAcks(s.fates)
            && Snapshots(s.world.sent) <= 1
            && (!s.closed && s.queue != [] ==> s.pending.Some?)
  {
    RunKeeps(v, INITIAL, events);
    RunReplies(v, INITIAL, events);
    hide Run, SentAcks, Snapshots, Frames, TotalBytes, InstalledAcks, Slot, Replies;
  }

  /** What can still happen to the outgoing messages after a close: nothing, or the one
      acknowledgement of the frame that was in the slot, from its own commit. */
  predicate OnlySlotSent(v: Verifier, s: State, e: State) {
    || e.world.sent == s.world.sent
    || (&& s.pending.Some? && e.pending.None? && |e.fates| == |s.fates| > 0
        && var f := e.fates[|e.fates| - 1];
           && f.Installed? && f.acknowledgement.Some?
           && v.commit(f.call) == CommitOk(s.pending.value.stageId, f.acknowledgement)
           && (s.pending.value.phase.AwaitInstall? ==> f.acknowledgement == s.pending.value.acknowledgement)
           && e.world.sent == s.world.sent + [Acknowledgement(f.acknowledgement.value)])
  }

  /** The slot after a close: the same frame, further on, or empty for good. */
  predicate SlotOnlyEmpties(s: State, e: State) {
    && |e.fates| == |s.fates|
    && (s.pending.None? ==> e.pending.None?)
    && (e.pending.Some? ==>
          && s.pending.Some? && e.pending.value.stageId == s.pending.value.stageId
          && (s.pending.value.phase.AwaitInstall? ==> e.pending == s.pending))
    && (e.pending.Some? ==> e.world.sent == s.world.sent)
  }

  predicate ClosedStep(v: Verifier, s: State, e: State) {
    && e.closed && e.received == s.received && e.world.staged == s.world.staged && e.queue == s.queue
    && e.recoveryRequested == s.recoveryRequested
    && OnlySlotSent(v, s, e) && SlotOnlyEmpties(s, e)
    && (s.pending.None? ==> e.fates == s.fates && e.world.sent == s.world.sent)
  }

  lemma StepAfterClose(v: Verifier, s: State, event: Event)
    requires Inv(s) && Replies(v, s) && s.closed
    ensures ClosedStep(v, s, Step(v, s, event))
  {
    hide SentAcks, Snapshots, Frames, TotalBytes, InstalledAcks;
  }

  lemma ClosedStepsCompose(v: Verifier, s: State, t: State, e: State)
    requires ClosedStep(v, s, t) && ClosedStep(v, t, e)
    ensures ClosedStep(v, s, e)
  {}

  /** After a close no frame is received, none is staged and no snapshot or client message is
      sent; only the frame already in the slot can still be committed and acknowledged, with the
      acknowledgement of its own commit. */
  lemma {:induction false} ClosedForGood(v: Verifier, s: State, events: seq<Event>)
    requires Inv(s) && Replies(v, s) && s.closed
    ensures ClosedStep(v, s, Run(v, s, events))
    decreases |events|
  {
    if events != [] {
      hide Inv, Replies, ClosedStep, Step;
      var t := Step(v, s, events[0]);
      StepKeeps(v, s, events[0]);
      StepReplies(v, s, events[0]);
      StepAfterClose(v, s, events[0]);
      assert t.closed by { StillClosed(v, s, t); }
      ClosedForGood(v, t, events[1..]);
      ClosedStepsCompose(v, s, t, Run(v, t, events[1..]));
    }
  }

  lemma StillClosed(v: Verifier, s: State, e: State)
    requires ClosedStep(v, s, e)
    ensures e.closed
  {}

  // ---- the worker ------------------------------------------------------------------------

  class VerifiedFrameBridge {
    const verifier: Verifier
    var queue: seq<Queued>
    var queuedBytes: int
    var pending: Option<Pending>
    var nextFrameId: nat
    var recoveryRequested: bool
    var closed: bool
    var world: World
    ghost var received: seq<string>
    ghost var fates: seq<Fate>

    constructor (verifier: Verifier)
      ensures this.verifier == verifier && Observed() == INITIAL
    {
      this.verifier := verifier;
      queue, queuedBytes, pending, nextFrameId := [], 0, None, 1;
      recoveryRequested, closed := false, false;
      world := World([], 0, 0, [], []);
      received, fates := [], [];
    }

    ghost function Observed(): State
      reads this
    {
      State(queue, queuedBytes, pending, nextFrameId, recoveryRequested, closed, world, received, fates)
    }

    method FailWith(code: string)
      modifies this
      ensures Observed() == Fail(old(Observed()), code)
    {
      if closed { return; }
      closed := true;
      world := world.(posted := world.posted + [Failed(code)]);
    }

    method DrainQueue()
      modifies this
      ensures Observed() == Drain(verifier, old(Observed()))
      decreases if recoveryRequested then 0 else 1
    {
      if closed || pending.Some? || queue == [] { return; }
      var queued := queue[0];
      queue := queue[1..];
      queuedBytes := queuedBytes - queued.bytes;
      var staged := verifier.stage(|world.staged|);
      world := world.(staged := world.staged + [queued.frame]);
      if staged.Refused? && staged.code == "frontier_mismatch" && !recoveryRequested {
        fates := fates + [Recovered];
        recoveryRequested := true;
        world := world.(sent := world.sent + [RequestSnapshot]);
        assert Observed() == Send(Taken(old(Observed()), Recovered).(recoveryRequested := true), RequestSnapshot);
        DrainQueue();
        return;
      }
      if !staged.Staged? {
        fates := fates + [Rejected];
        assert Observed() == Taken(old(Observed()), Rejected);
        FailWith(if staged.Refused? then staged.code else "verifier_response_invalid");
        return;
      }
      hide Drain;
      DrainStaged(verifier, old(Observed()));
      var frameId := nextFrameId;
      nextFrameId := nextFrameId + 1;
      fates := fates + [Waiting];
      pending := Some(Pending(frameId, staged.stageId, AwaitPresentation, None));
      world := world.(posted := world.posted + [PrepareFrame(frameId, staged.kind, staged.messageJson)]);
    }

    /** A frame from the socket; a binary frame is `None`. */
    method ReceiveFrame(frame: Option<Queued>)
      modifies this
      ensures Observed() == Receive(verifier, old(Observed()), frame)
    {
      hide Drain, Fail;
      if closed {
        return;
      }
      if frame.None? {
        FailWith("binary_frame");
        return;
      }
      if |queue| >= MAX_QUEUED_FRAMES || queuedBytes + frame.value.bytes > MAX_QUEUED_BYTES {
        FailWith("frame_queue_limit");
        return;
      }
      queue := queue + [frame.value];
      received := received + [frame.value.frame];
      queuedBytes := queuedBytes + frame.value.bytes;
      DrainQueue();
    }

    method ConfirmPrepared(frameId: nat)
      modifies this
      ensures Observed() == Prepared(verifier, old(Observed()), frameId)
    {
      if !(pending.Some? && pending.value.frameId == frameId && pending.value.phase.AwaitPresentation?) {
        FailWith("presentation_sequence");
        return;
      }
      var committed := verifier.commit(world.commits);
      world := world.(commits := world.commits + 1);
      if committed.CommitFailed? {
        FailWith(committed.code);
        return;
      }
      if committed.stageId != pending.value.stageId {
        FailWith("commit_failure");
        return;
      }
      pending := Some(pending.value.(phase := AwaitInstall));
      pending := Some(pending.value.(acknowledgement := committed.acknowledgement));
      fates := Settle(fates, Committed(world.commits - 1, committed.acknowledgement));
      world := world.(posted := world.posted + [InstallFrame(frameId)]);
    }

    method ConfirmInstalled(frameId: nat)
      modifies this
      ensures Observed() == InstalledStep(verifier, old(Observed()), frameId)
    {
      if !(pending.Some? && pending.value.frameId == frameId && pending.value.phase.AwaitInstall?) {
        FailWith("presentation_sequence");
        return;
      }
      var acknowledgement := pending.value.acknowledgement;
      if acknowledgement.Some? {
        world := world.(sent := world.sent + [Acknowledgement(acknowledgement.value)]);
      }
      pending := None;
      fates := Settle(fates, Installed(LastCall(fates), acknowledgement));
      DrainQueue();
    }

    method RejectFrame(frameId: nat)
      modifies this
      ensures Observed() == RejectedStep(verifier, old(Observed()), frameId)
    {
      if pending.None? || pending.value.frameId != frameId {
        FailWith("presentation_sequence");
        return;
      }
      if pending.value.phase.AwaitPresentation? {
        var discarded := verifier.discard(world.discards);
        world := world.(discards := world.discards + 1);
        if discarded.DiscardFailed? {
          FailWith(discarded.code);
          return;
        }
      }
      FailWith("presentation_rejected");
    }

    method SendClientMessage(message: Option<string>)
      modifies this
      ensures Observed() == SendStep(old(Observed()), message)
    {
      if closed || message.None? { return; }
      world := world.(sent := world.sent + [ClientMessage(message.value)]);
    }
  }
}
