/** What the bridge tells the main thread: which frames to prepare, which to install, and why it
    closed, in every run; and what each event does to an open bridge. */
module FrameLedger {
  import opened Prelude
  import opened FrameBridge

  // ---- the ledger ------------------------------------------------------------------------

  /** The verifier accepted the frame: it was, or is, in the slot. */
  predicate Accepted(f: Fate) { !f.Rejected? && !f.Recovered? }

  function AcceptedCount(fates: seq<Fate>): nat {
    if fates == [] then 0 else AcceptedCount(fates[..|fates| - 1]) + (if Accepted(fates[|fates| - 1]) then 1 else 0)
  }

  /** The posts one frame calls for: shown with the very kind and text the verifier replied for it,
      and installed once it was committed. */
  function PostsOf(reply: StageReply, frameId: nat, f: Fate): seq<Post> {
    if !Accepted(f) || !reply.Staged? then []
    else
      var install := if f.Committed? || f.Installed? then [InstallFrame(frameId)] else [];
      [PrepareFrame(frameId, reply.kind, reply.messageJson)] + install
  }

  /** All posts the fates call for, frame by frame in staging order; the accepted frames are numbered
      from one. */
  function Ledger(v: Verifier, fates: seq<Fate>): seq<Post> {
    if fates == [] then []
    else
      var n := |fates| - 1;
      Ledger(v, fates[..n]) + PostsOf(v.stage(n), AcceptedCount(fates[..n]) + 1, fates[n])
  }

  /** The posts that are not failures, and the codes of those that are. */
  function Shown(posted: seq<Post>): seq<Post> {
    if posted == [] then []
    else
      var last := posted[|posted| - 1];
      Shown(posted[..|posted| - 1]) + (if last.Failed? then [] else [last])
  }

  function Failures(posted: seq<Post>): seq<string> {
    if posted == [] then []
    else
      var last := posted[|posted| - 1];
      Failures(posted[..|posted| - 1]) + (if last.Failed? then [last.code] else [])
  }

  predicate LedgerHolds(v: Verifier, s: State) {
    && Shown(s.world.posted) == Ledger(v, s.fates)
    && |Failures(s.world.posted)| == (if s.closed then 1 else 0)
    && s.nextFrameId == AcceptedCount(s.fates) + 1
    && (s.pending.Some? ==> s.pending.value.frameId == AcceptedCount(s.fates))
  }

  lemma {:induction false} PostAppended(posted: seq<Post>, post: Post)
    ensures Shown(posted + [post]) == Shown(posted) + (if post.Failed? then [] else [post])
    ensures Failures(posted + [post]) == Failures(posted) + (if post.Failed? then [post.code] else [])
  {
    assert (posted + [post])[..|posted|] == posted;
  }

  lemma {:induction false} FateAppended(v: Verifier, fates: seq<Fate>, fate: Fate)
    ensures Ledger(v, fates + [fate])
        == Ledger(v, fates) + PostsOf(v.stage(|fates|), AcceptedCount(fates) + 1, fate)
    ensures AcceptedCount(fates + [fate]) == AcceptedCount(fates) + (if Accepted(fate) then 1 else 0)
  {
    hide *;
    var all := fates + [fate];
    assert all[..|fates|] == fates && |all| - 1 == |fates| && all[|fates|] == fate;
    LedgerOfLast(v, all);
    CountOfLast(all);
  }

  lemma {:induction false} LedgerOfLast(v: Verifier, all: seq<Fate>)
    requires all != []
    ensures var n := |all| - 1;
            Ledger(v, all) == Ledger(v, all[..n]) + PostsOf(v.stage(n), AcceptedCount(all[..n]) + 1, all[n])
  {
    hide PostsOf, AcceptedCount;
  }

  lemma {:induction false} CountOfLast(all: seq<Fate>)
    requires all != []
    ensures AcceptedCount(all)
        == AcceptedCount(all[..|all| - 1]) + (if Accepted(all[|all| - 1]) then 1 else 0)
  {
    hide Accepted;
  }

  /** Settling the last frame further keeps its number. */
  lemma {:induction false} LastSettled(v: Verifier, fates: seq<Fate>, fate: Fate)
    requires fates != [] && Accepted(fates[|fates| - 1]) && Accepted(fate)
    ensures AcceptedCount(Settle(fates, fate)) == AcceptedCount(fates)
    ensures var n := |fates| - 1;
            && Ledger(v, fates) == Ledger(v, fates[..n]) + PostsOf(v.stage(n), AcceptedCount(fates), fates[n])
            && Ledger(v, Settle(fates, fate))
              == Ledger(v, fates[..n]) + PostsOf(v.stage(n), AcceptedCount(fates), fate)
  {
    hide Ledger, AcceptedCount, PostsOf;
    var n := |fates| - 1;
    FateAppended(v, fates[..n], fate);
    FateAppended(v, fates[..n], fates[n]);
    assert fates[..n] + [fates[n]] == fates;
  }

  /** The frame in the slot is the last one, accepted by the verifier. */
  lemma SlotFacts(v: Verifier, s: State)
    requires FrameBridge.Inv(s) && Replies(v, s) && s.pending.Some?
    ensures s.fates != [] && v.stage(|s.fates| - 1).Staged?
    ensures var last := s.fates[|s.fates| - 1];
            if s.pending.value.phase.AwaitPresentation? then last.Waiting? else last.Committed?
  {
    hide SentAcks, InstalledAcks, Snapshots, Frames, TotalBytes, Flow, Wires;
  }

  lemma FailLedger(v: Verifier, s: State, code: string)
    requires LedgerHolds(v, s)
    ensures LedgerHolds(v, Fail(s, code))
  {
    PostAppended(s.world.posted, Failed(code));
    hide Shown, Failures, Ledger, AcceptedCount;
  }

  /** A change of nothing the ledger speaks about. */
  lemma SameLedger(v: Verifier, s: State, t: State)
    requires LedgerHolds(v, s) && t.fates == s.fates && t.world.posted == s.world.posted && t.closed == s.closed
    requires t.nextFrameId == s.nextFrameId
    requires t.pending.Some? ==> s.pending.Some? && t.pending.value.frameId == s.pending.value.frameId
    ensures LedgerHolds(v, t)
  {
    hide Shown, Failures, Ledger, AcceptedCount;
  }

  lemma DroppedLedger(v: Verifier, s: State, fate: Fate)
    requires LedgerHolds(v, s) && s.queue != [] && s.pending.None? && !Accepted(fate)
    ensures LedgerHolds(v, Taken(s, fate))
  {
    FateAppended(v, s.fates, fate);
    hide Shown, Failures, Ledger, AcceptedCount;
  }

  lemma StagedLedger(v: Verifier, s: State)
    requires LedgerHolds(v, s) && |s.fates| == |s.world.staged|
    requires !s.closed && s.queue != [] && s.pending.None? && v.stage(|s.world.staged|).Staged?
    ensures LedgerHolds(v, Drain(v, s))
  {
    DrainStaged(v, s);
    var reply := v.stage(|s.world.staged|);
    FateAppended(v, s.fates, Waiting);
    PostAppended(s.world.posted, PrepareFrame(s.nextFrameId, reply.kind, reply.messageJson));
    assert PostsOf(reply, s.nextFrameId, Waiting) == [PrepareFrame(s.nextFrameId, reply.kind, reply.messageJson)];
    hide Shown, Failures, Ledger, AcceptedCount, Drain, PostsOf;
  }

  lemma {:induction false} DrainLedger(v: Verifier, s: State)
    requires BeforeDrain(s) && LedgerHolds(v, s)
    ensures LedgerHolds(v, Drain(v, s))
    decreases if s.recoveryRequested then 0 else 1
  {
    hide LedgerHolds, Frames, TotalBytes, Slot, Wires, Fail, Taken, Send;
    if !s.closed && s.pending.None? && s.queue != [] {
      match v.stage(|s.world.staged|) {
        case Staged(_, _, _) => StagedLedger(v, s);
        case Refused(code) =>
          if code == "frontier_mismatch" && !s.recoveryRequested {
            DroppedLedger(v, s, Recovered);
            RecoverKeeps(s);
            var t := Send(Taken(s, Recovered).(recoveryRequested := true), RequestSnapshot);
            AfterRecovery(v, s);
            DrainLedger(v, t);
          } else {
            DroppedLedger(v, s, Rejected);
            FailLedger(v, Taken(s, Rejected), code);
          }
        case Incomplete =>
          DroppedLedger(v, s, Rejected);
          FailLedger(v, Taken(s, Rejected), "verifier_response_invalid");
        case Unreadable =>
          DroppedLedger(v, s, Rejected);
          FailLedger(v, Taken(s, Rejected), "verifier_response_invalid");
      }
    }
  }

  lemma AfterRecovery(v: Verifier, s: State)
    requires s.queue != [] && LedgerHolds(v, Taken(s, Recovered))
    ensures var t := Send(Taken(s, Recovered).(recoveryRequested := true), RequestSnapshot);
            LedgerHolds(v, t) && t.recoveryRequested
  {
    SameLedger(v, Taken(s, Recovered), Send(Taken(s, Recovered).(recoveryRequested := true), RequestSnapshot));
    hide LedgerHolds;
  }

  lemma CommittedLedger(v: Verifier, s: State, frameId: nat, acknowledgement: Option<string>)
    requires FrameBridge.Inv(s) && Replies(v, s) && LedgerHolds(v, s) && Matches(s, frameId, AwaitPresentation)
    requires v.commit(s.world.commits) == CommitOk(s.pending.value.stageId, acknowledgement)
    ensures LedgerHolds(v, Prepared(v, s, frameId))
  {
    hide FrameBridge.Inv, Replies, Shown, Failures, Ledger, AcceptedCount, Settle;
    SlotFacts(v, s);
    var fate := Committed(s.world.commits, acknowledgement);
    LastSettled(v, s.fates, fate);
    InstallFollows(v.stage(|s.fates| - 1), AcceptedCount(s.fates), s.fates[|s.fates| - 1], fate);
    PostAppended(s.world.posted, InstallFrame(frameId));
    hide PostsOf;
  }

  /** Committing a waiting frame adds the request to install it. */
  lemma InstallFollows(reply: StageReply, frameId: nat, waiting: Fate, committed: Fate)
    requires reply.Staged? && waiting.Waiting? && committed.Committed?
    ensures PostsOf(reply, frameId, committed) == PostsOf(reply, frameId, waiting) + [InstallFrame(frameId)]
  {}

  lemma ReleasedLedger(v: Verifier, s: State)
    requires FrameBridge.Inv(s) && Replies(v, s) && LedgerHolds(v, s)
    requires s.pending.Some? && s.pending.value.phase.AwaitInstall?
    ensures LedgerHolds(v, Released(s))
  {
    hide FrameBridge.Inv, Replies, Shown, Failures, Ledger, AcceptedCount, Settle, LastCall;
    SlotFacts(v, s);
    var fate := Installed(LastCall(s.fates), s.pending.value.acknowledgement);
    LastSettled(v, s.fates, fate);
    assert PostsOf(v.stage(|s.fates| - 1), AcceptedCount(s.fates), s.fates[|s.fates| - 1])
        == PostsOf(v.stage(|s.fates| - 1), AcceptedCount(s.fates), fate);
    hide PostsOf;
  }

  lemma ReceiveLedger(v: Verifier, s: State, frame: Option<Queued>)
    requires FrameBridge.Inv(s) && LedgerHolds(v, s)
    ensures LedgerHolds(v, Receive(v, s, frame))
  {
    hide LedgerHolds, Drain, Fail, Frames, TotalBytes, Slot, Wires;
    FailLedger(v, s, "binary_frame");
    FailLedger(v, s, "frame_queue_limit");
    if !s.closed && frame.Some? && |s.queue| < MAX_QUEUED_FRAMES
      && s.queuedBytes + frame.value.bytes <= MAX_QUEUED_BYTES {
      var t := s.(queue := s.queue + [frame.value], queuedBytes := s.queuedBytes + frame.value.bytes,
                  received := s.received + [frame.value.frame]);
      FramesAppend(s.queue, frame.value);
      SameLedger(v, s, t);
      EnqueuedHolds(s, t);
      DrainLedger(v, t);
    }
  }

  lemma StepLedger(v: Verifier, s: State, event: Event)
    requires FrameBridge.Inv(s) && Replies(v, s) && LedgerHolds(v, s)
    ensures LedgerHolds(v, Step(v, s, event))
  {
    hide LedgerHolds, FrameBridge.Inv, Replies, Drain, Fail, Released, Receive;
    match event {
      case OnFrame(frame) => ReceiveLedger(v, s, frame);
      case OnPrepared(frameId) =>
        FailLedger(v, s, "presentation_sequence");
        if Matches(s, frameId, AwaitPresentation) {
          var t := s.(world := s.world.(commits := s.world.commits + 1));
          SameLedger(v, s, t);
          match v.commit(s.world.commits) {
            case CommitFailed(code) => FailLedger(v, t, code);
            case CommitOk(stageId, acknowledgement) =>
              FailLedger(v, t, "commit_failure");
              if stageId == s.pending.value.stageId { CommittedLedger(v, s, frameId, acknowledgement); }
          }
        }
      case OnInstalled(frameId) =>
        FailLedger(v, s, "presentation_sequence");
        if Matches(s, frameId, AwaitInstall) {
          ReleasedLedger(v, s);
          ReleasedKeeps(s);
          DrainLedger(v, Released(s));
        }
      case OnRejected(frameId) =>
        FailLedger(v, s, "presentation_sequence");
        FailLedger(v, s, "presentation_rejected");
        var t := s.(world := s.world.(discards := s.world.discards + 1));
        SameLedger(v, s, t);
        FailLedger(v, t, "presentation_rejected");
        match v.discard(s.world.discards) {
          case DiscardFailed(code) => FailLedger(v, t, code);
          case DiscardOk =>
        }
      case OnClientMessage(message) => SameLedger(v, s, SendStep(s, message));
    }
  }

  lemma {:induction false} RunLedger(v: Verifier, s: State, events: seq<Event>)
    requires FrameBridge.Inv(s) && Replies(v, s) && LedgerHolds(v, s)
    ensures LedgerHolds(v, Run(v, s, events))
    decreases |events|
  {
    hide FrameBridge.Inv, Replies, LedgerHolds, Step;
    if events != [] {
      FrameBridge.StepKeeps(v, s, events[0]);
      StepReplies(v, s, events[0]);
      StepLedger(v, s, events[0]);
      RunLedger(v, Step(v, s, events[0]), events[1..]);
    }
  }

  /** In every run the main thread is told exactly this, in this order: for each frame the verifier
      accepted, in staging order and numbered from one, to prepare it with the kind and text of the
      reply to that frame, and once it was committed to install it; and one failure if and only if
      the bridge closed. The frame in the slot is the last accepted one, and if it awaits its
      installation the request to install it was the last one shown. */
  lemma PostsAreLedger(v: Verifier, events: seq<Event>)
    ensures var s := Run(v, INITIAL, events);
            && Shown(s.world.posted) == Ledger(v, s.fates)
            && |Failures(s.world.posted)| == (if s.closed then 1 else 0)
            && (s.pending.Some? ==>
                  && s.fates != [] && Accepted(s.fates[|s.fates| - 1])
                  && s.pending.value.frameId == AcceptedCount(s.fates)
                  && (s.pending.value.phase.AwaitInstall? ==>
                        var shown := Shown(s.world.posted);
                        shown != [] && shown[|shown| - 1] == InstallFrame(s.pending.value.frameId)))
  {
    NothingYet(v);
    hide Run, Ledger, Shown, Failures, AcceptedCount, FrameBridge.Inv, Replies, Accepted;
    FrameBridge.RunKeeps(v, INITIAL, events);
    RunReplies(v, INITIAL, events);
    RunLedger(v, INITIAL, events);
    var s := Run(v, INITIAL, events);
    if s.pending.Some? { LastShown(v, s); }
  }

  lemma NothingYet(v: Verifier)
    ensures FrameBridge.Inv(INITIAL) && Replies(v, INITIAL) && LedgerHolds(v, INITIAL)
  {}

  lemma LastShown(v: Verifier, s: State)
    requires FrameBridge.Inv(s) && Replies(v, s) && LedgerHolds(v, s) && s.pending.Some?
    ensures s.fates != [] && Accepted(s.fates[|s.fates| - 1])
    ensures s.pending.value.phase.AwaitInstall? ==>
              var shown := Shown(s.world.posted);
              shown != [] && shown[|shown| - 1] == InstallFrame(s.pending.value.frameId)
  {
    hide FrameBridge.Inv, Replies, Shown, Failures, Ledger, AcceptedCount;
    SlotFacts(v, s);
    LastSettled(v, s.fates, s.fates[|s.fates| - 1]);
  }

  // ---- what one event does to an open bridge ---------------------------------------------

  /** The bridge closed with this code, after what `t` records. */
  predicate ClosedWith(t: State, e: State, code: string) {
    e == t.(closed := true, world := t.world.(posted := t.world.posted + [Failed(code)]))
  }

  /** The head of the queue was handed to the verifier with this fate. */
  predicate HeadTaken(s: State, t: State, fate: Fate) {
    && s.queue != [] && t.queue == s.queue[1..] && t.queuedBytes == s.queuedBytes - s.queue[0].bytes
    && t.fates == s.fates + [fate] && t.world.staged == s.world.staged + [s.queue[0].frame]
    && t.received == s.received && t.closed == s.closed
    && t.world.commits == s.world.commits && t.world.discards == s.world.discards
  }

  /** A drain stops at a closed bridge, a full slot or an empty queue. Otherwise the reply to the
      head decides: accepted, it takes the slot; refused for its frontier for the first time, a
      snapshot is requested and the drain goes on; refused otherwise or unreadable, the bridge closes
      with the verifier's code or its own. */
  lemma DrainOutcome(v: Verifier, s: State)
    ensures var e, reply := Drain(v, s), v.stage(|s.world.staged|);
            if s.closed || s.pending.Some? || s.queue == [] then e == s
            else if reply.Staged? then
              && HeadTaken(s, e, Waiting) && e.world.sent == s.world.sent
              && e.recoveryRequested == s.recoveryRequested && e.nextFrameId == s.nextFrameId + 1
              && e.pending == Some(Pending(s.nextFrameId, reply.stageId, AwaitPresentation, None))
              && e.world.posted == s.world.posted + [PrepareFrame(s.nextFrameId, reply.kind, reply.messageJson)]
            else if reply == Refused("frontier_mismatch") && !s.recoveryRequested then
              exists t: State ::
                && HeadTaken(s, t, Recovered) && t.recoveryRequested && t.pending.None?
                && t.nextFrameId == s.nextFrameId && t.world.posted == s.world.posted
                && t.world.sent == s.world.sent + [RequestSnapshot] && e == Drain(v, t)
            else
              exists t: State ::
                && HeadTaken(s, t, Rejected) && t.pending.None? && t.recoveryRequested == s.recoveryRequested
                && t.nextFrameId == s.nextFrameId && t.world.posted == s.world.posted
                && t.world.sent == s.world.sent
                && ClosedWith(t, e, if reply.Refused? then reply.code else "verifier_response_invalid")
  {
    if !s.closed && s.pending.None? && s.queue != [] {
      var reply := v.stage(|s.world.staged|);
      if reply == Refused("frontier_mismatch") && !s.recoveryRequested {
        var t := Send(Taken(s, Recovered).(recoveryRequested := true), RequestSnapshot);
        assert HeadTaken(s, t, Recovered);
        assert Drain(v, s) == Drain(v, t);
      } else if !reply.Staged? {
        var t := Taken(s, Rejected);
        assert HeadTaken(s, t, Rejected);
        assert ClosedWith(t, Drain(v, s), if reply.Refused? then reply.code else "verifier_response_invalid");
      }
    }
  }

  /** A frame from the socket: binary frames and frames beyond sixteen waiting or sixteen mebibytes
      close the bridge, with nothing enqueued; behind a full slot a frame only waits; with the slot
      free nothing waits, and the frame goes to the verifier at once. */
  lemma FrameOutcome(v: Verifier, s: State, frame: Option<Queued>)
    requires FrameBridge.Inv(s) && !s.closed
    ensures var e := Receive(v, s, frame);
            if frame.None? then ClosedWith(s, e, "binary_frame")
            else if |s.queue| + 1 > 16 || s.queuedBytes + frame.value.bytes > 16_777_216 then
              ClosedWith(s, e, "frame_queue_limit")
            else
              exists t: State ::
                && t == s.(queue := s.queue + [frame.value], queuedBytes := s.queuedBytes + frame.value.bytes,
                           received := s.received + [frame.value.frame])
                && (if s.pending.Some? then e == t else t.queue == [frame.value] && e == Drain(v, t))
  {
    hide SentAcks, InstalledAcks, Snapshots, Frames, TotalBytes, Flow, Slot, Wires;
    if frame.Some? {
      var t := s.(queue := s.queue + [frame.value], queuedBytes := s.queuedBytes + frame.value.bytes,
                  received := s.received + [frame.value.frame]);
      assert s.pending.Some? ==> Drain(v, t) == t;
      hide Drain;
    }
  }

  /** A presented frame is committed by one call; it is installed exactly when the reply names the
      stage in the slot, and keeps that reply's acknowledgement. Any other frame or moment, a failed
      commit and a wrong stage close the bridge. */
  lemma PreparedOutcome(v: Verifier, s: State, frameId: nat)
    requires FrameBridge.Inv(s) && !s.closed
    ensures var e, reply := Prepared(v, s, frameId), v.commit(s.world.commits);
            var called := s.(world := s.world.(commits := s.world.commits + 1));
            if s.pending.None? || s.pending.value.frameId != frameId || !s.pending.value.phase.AwaitPresentation? then
              ClosedWith(s, e, "presentation_sequence")
            else if reply.CommitFailed? then ClosedWith(called, e, reply.code)
            else if reply.stageId != s.pending.value.stageId then ClosedWith(called, e, "commit_failure")
            else
              && s.fates != []
              && e == called.(
                   pending := Some(Pending(frameId, s.pending.value.stageId, AwaitInstall, reply.acknowledgement)),
                   world := called.world.(posted := s.world.posted + [InstallFrame(frameId)]),
                   fates := s.fates[..|s.fates| - 1] + [Committed(s.world.commits, reply.acknowledgement)])
  {
    hide SentAcks, InstalledAcks, Snapshots, Frames, TotalBytes, Flow, Wires;
  }

  /** A rejected frame closes the bridge; before its commit the verifier is told to discard it. */
  lemma RejectedOutcome(v: Verifier, s: State, frameId: nat)
    requires !s.closed
    ensures var e, reply := RejectedStep(v, s, frameId), v.discard(s.world.discards);
            if s.pending.None? || s.pending.value.frameId != frameId then ClosedWith(s, e, "presentation_sequence")
            else if s.pending.value.phase.AwaitInstall? then ClosedWith(s, e, "presentation_rejected")
            else
              ClosedWith(s.(world := s.world.(discards := s.world.discards + 1)), e,
                if reply.DiscardFailed? then reply.code else "presentation_rejected")
  {}

  /** An installed frame frees the slot and sends the acknowledgement that its own commit carried, if
      it carried one; then the queue is drained. */
  lemma InstalledOutcome(v: Verifier, s: State, frameId: nat)
    requires FrameBridge.Inv(s) && Replies(v, s) && !s.closed
    ensures var e := InstalledStep(v, s, frameId);
            if s.pending.None? || s.pending.value.frameId != frameId || !s.pending.value.phase.AwaitInstall? then
              ClosedWith(s, e, "presentation_sequence")
            else
              && s.fates != [] && s.fates[|s.fates| - 1].Committed?
              && var call := s.fates[|s.fates| - 1].call;
              && v.commit(call).CommitOk?
              && var acknowledgement := v.commit(call).acknowledgement;
              e == Drain(v, s.(pending := None,
                     fates := s.fates[..|s.fates| - 1] + [Installed(call, acknowledgement)],
                     world := s.world.(sent := s.world.sent
                       + (if acknowledgement.Some? then [Acknowledgement(acknowledgement.value)] else []))))
  {
    hide SentAcks, InstalledAcks, Snapshots, Frames, TotalBytes, Flow, Wires, Drain;
    assert s.world.(sent := s.world.sent + []) == s.world;
  }

  /** A message of the client is forwarded while the bridge is open, and only then. */
  lemma ClientOutcome(s: State, message: Option<string>)
    ensures SendStep(s, message).world.sent
        == s.world.sent + (if message.Some? && !s.closed then [ClientMessage(message.value)] else [])
    ensures SendStep(s, message) == s.(world := s.world.(sent := SendStep(s, message).world.sent))
  {}
}
