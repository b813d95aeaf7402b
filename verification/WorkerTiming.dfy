/** The bounded handoff: how long a takeover may take when due work is not left waiting. */
module WorkerTiming {
  import opened Wrappers
  import opened Worker
  import opened WorkerInvariant
  import opened WorkerRuns
  import C = Control
  import A = Admission
  import E = CommandEffects

  /** The loop has work it will do before the clock moves on. */
  ghost predicate Due(w: World) {
    || (exists i: nat :: i < |w.control.announcements| && w.control.announcements[i].pc.Created?)
    || (exists i: nat :: C.TimerDue(w.control, i, w.now))
    || w.control.stop.HandoffCreated? || w.control.stop.StopCreated?
    || (w.control.stop.HandoffWaiting? && C.StopMayResume(w.control, w.now))
    || (w.control.stop.Disconnecting? && (w.control.stop.when <= w.now || w.control.stopCancelled))
  }

  /** A run whose clock never passes over due work; disconnect gives way to its timeout. */
  ghost predicate IsPromptRun(ws: seq<World>, es: seq<Event>) {
    && IsRun(ws, es)
    && (forall i :: 0 <= i < |es| && es[i].Tick? ==> !Due(ws[i]))
  }

  /** Where the stop task may be, given when the takeover came and what grace it left. */
  ghost predicate Within(w: World, at: int, grace: int) {
    && at <= w.now && 0 <= grace
    && match w.control.stop
       case HandoffCreated(d) => w.now == at && at <= d <= at + grace
       case HandoffWaiting(d, _, when) => w.now <= when <= at + grace && d <= at + grace
       case StopCreated(r) => w.now == at && r == grace
       case Disconnecting(when) => w.now <= when <= at + grace + 1
       case Completed => true
       case _ => false
  }

  ghost predicate TimeInv(w: World) {
    && (w.control.stopping <==> w.log.takeover.Some?)
    && (w.log.takeover.Some? ==> Within(w, w.log.takeover.value.at, w.log.takeover.value.grace))
  }

  /** What a takeover leaves as stop task, measured against its own grace. */
  lemma AnsweredWithin(c: C.ControlState, deadlineMs: int, now: int, lost: nat)
    requires C.Inv(c) && !c.stopping && lost <= 1 && lost <= C.Grace(deadlineMs, now)
    requires c.current.Some? ==> c.ready
    ensures
      var d := C.Answered(c, deadlineMs, now, lost);
      && d.stopping && d.stopCancelled == c.stopCancelled
      && match d.stop
         case HandoffCreated(e) => now <= e <= now + C.Grace(deadlineMs, now)
         case StopCreated(r) => r == C.Grace(deadlineMs, now)
         case _ => false
  {
    var r := C.Grace(deadlineMs, now);
    var p := C.Prepare(c, deadlineMs, now, lost);
    assert p.stopCancelled == c.stopCancelled && p.stopping;
    if c.ready && r > 0 && p.current.Some? {
      assert p.deadlineMs == now + r - lost;
    }
  }

  /** Delivering a packet starts the takeover it brings, or leaves the stop task alone. */
  lemma DeliverTime(w: World, packet: Option<C.Command>, lost: nat)
    requires Inv(w) && TimeInv(w) && !Muted(w) && C.LossOk(packet, w.now, lost)
    ensures TimeInv(Deliver(w, packet, lost))
  {
    if C.Accepts(w.control, packet) {
      var cmd := packet.value;
      var c := w.control.(seen := C.Remember(w.control.seen, cmd.id));
      E.RememberInv(w.control, c.seen);
      if cmd.action.HumanAnswered? {
        AnsweredWithin(c, cmd.deadlineMs, w.now, lost);
      } else {
        OthersLeaveStop(c, cmd, w.now);
      }
    }
  }

  lemma DataTime(w: World, e: Event)
    requires Inv(w) && TimeInv(w) && Enabled(w, e) && e.Data?
    ensures TimeInv(Next(w, e))
  {
    if !Muted(w) {
      DeliverTime(w, e.packet, e.lost);
      AbortTime(Deliver(w, e.packet, e.lost));
    }
  }

  lemma OthersLeaveStop(c: C.ControlState, cmd: C.Command, now: int)
    ensures C.StopSame(c, C.Requested(c, cmd.deadlineMs, now))
    ensures C.StopSame(c, C.Failed(c, cmd.deadlineMs, now))
  {
    C.StartFrame(c.(transferring := true, deadlineMs := cmd.deadlineMs), now);
    FailedLeavesStop(c, cmd.deadlineMs, now);
  }

  lemma FailedLeavesStop(c: C.ControlState, deadlineMs: int, now: int)
    ensures C.StopSame(c, C.Failed(c, deadlineMs, now))
  {
  }

  /** Aborting and cleaning up leave the stop task and the clock alone. */
  lemma AbortTime(w: World)
    ensures TimeInv(w) ==> TimeInv(Abort(w)) && TimeInv(Cleanup(w))
  {
    AbortLeaves(w);
    CleanupLeaves(w);
  }

  lemma TaskTime(w: World, e: Event)
    requires Inv(w) && TimeInv(w) && Enabled(w, e) && IsTask(e)
    ensures TimeInv(Next(w, e))
  {
    if e.StopStep? { StopTime(w); } else { AnnounceTime(w, e); }
  }

  lemma AnnounceTime(w: World, e: Event)
    requires Enabled(w, e) && IsTask(e) && !e.StopStep?
    ensures Next(w, e).control.stop == w.control.stop && Next(w, e).control.stopping == w.control.stopping
  {
    match e
    case StopCancel =>
    case AnnounceStep(i, raised) => C.ResumeFrame(w.control, i, w.now, raised);
    case AnnounceSayFails(i) => C.FailedSayFrame(w.control, i);
    case AnnounceTimer(i) =>
  }

  lemma StopTime(w: World)
    requires Inv(w) && TimeInv(w) && C.StopMayResume(w.control, w.now)
    ensures TimeInv(w.(control := C.ResumeStop(w.control, w.now)))
  {
  }

  lemma RoomTime(w: World, room: A.Room, h: A.Handled)
    requires TimeInv(w)
    ensures TimeInv(OnRoom(w, room, h))
  {
    AbortTime(w.(room := room, adm := h.state));
  }

  lemma RoomEventTime(w: World, e: Event)
    requires TimeInv(w) && Enabled(w, e) && IsRoomEvent(e)
    ensures TimeInv(Next(w, e))
  {
    match e
    case RoomChanged(room) => RoomTime(w, room, A.Changed(w.adm, room));
    case ParticipantLeft(room, sid) => RoomTime(w, room, A.Disconnected(w.adm, room, sid));
    case RoomDisconnected(room) => RoomTime(w, room, A.Handled(w.adm, true));
    case TrackPublished(room, pub, who, failing) => RoomTime(w, room, A.TrackPublished(w.adm, room, pub, who, failing));
    case TrackSubscribed(room, pub, who) => RoomTime(w, room, A.TrackSubscribed(w.adm, pub, who));
    case TrackFailed(sid, trackSid) => RoomTime(w, w.room, A.SubscriptionFailed(w.adm, sid, trackSid));
    case TrackUnsubscribed(room, pub, who) => RoomTime(w, room, A.TrackUnsubscribed(w.adm, pub, who));
  }

  /** The clock and the takeover's own state are the same. */
  ghost predicate SameTime(w: World, v: World) {
    && v.now == w.now && v.log.takeover == w.log.takeover && v.closing == w.closing
    && C.StopSame(w.control, v.control)
  }

  lemma AudioTime(w: World, s: A.Subscription, localKnown: bool)
    ensures SameTime(w, AfterAudio(w, s, localKnown))
  {
    var v := AbortIf(w.(adm := s.state), s.abort);
    assert SameTime(w, v);
  }

  lemma EnableTime(w: World, greetingFails: bool)
    ensures SameTime(w, Enable(w, greetingFails))
  {
    C.ActivateFrame(w.control, w.now);
    C.GreetFrame(C.Activate(w.control, w.now));
  }

  lemma SubscriptionTime(w: World, e: Event)
    requires Enabled(w, e) && e.StartupStep? && (w.startup.Starting? || w.startup.Subscribing?)
    ensures SameTime(w, Next(w, e))
  {
    if w.startup.Starting? {
      AudioTime(w.(log := w.log.(sessionStarted := true)), A.SubscribeAudio(w.adm, w.room, e.failing), e.localKnown);
    } else {
      AudioTime(w, A.SubscribeTurn(w.adm, w.room, e.failing), e.localKnown);
    }
  }

  lemma StartupTime(w: World, e: Event)
    requires TimeInv(w) && Enabled(w, e) && e.StartupStep?
    ensures TimeInv(Next(w, e))
  {
    if w.startup.Starting? || w.startup.Subscribing? { SubscriptionTime(w, e); }
    else if w.startup.Publishing? { EnableTime(w, e.greetingFails); }
  }

  lemma EntryTime(w: World, e: Event)
    requires TimeInv(w) && Enabled(w, e) && e.EntryResumes?
    ensures TimeInv(Next(w, e))
  {
    EntryLeaves(w);
  }

  lemma TickTime(w: World, e: Event)
    requires Inv(w) && TimeInv(w) && e.Tick? && !Due(w)
    ensures TimeInv(Next(w, e))
  {
  }

  lemma EndingTime(w: World, e: Event)
    requires TimeInv(w) && Enabled(w, e)
    requires e.SessionClosed? || e.PublisherFailed? || e.StartupRaises? || e.JobShutdown? || e.CloseControl?
    ensures TimeInv(Next(w, e))
  {
    AbortTime(w);
  }

  lemma StepTime(w: World, e: Event)
    requires Inv(w) && TimeInv(w) && Enabled(w, e) && (e.Tick? ==> !Due(w))
    ensures TimeInv(Next(w, e))
  {
    if e.Data? { DataTime(w, e); }
    else if IsTask(e) { TaskTime(w, e); }
    else if IsRoomEvent(e) { RoomEventTime(w, e); }
    else if e.StartupStep? { StartupTime(w, e); }
    else if e.EntryResumes? { EntryTime(w, e); }
    else if e.Tick? { TickTime(w, e); }
    else { EndingTime(w, e); }
  }

  lemma {:induction false} PromptKeeps(ws: seq<World>, es: seq<Event>, i: nat)
    requires IsPromptRun(ws, es) && i < |ws|
    ensures TimeInv(ws[i])
  {
    if i > 0 {
      PromptKeeps(ws, es, i - 1);
      RunKeeps(ws, es, i - 1);
      assert StepAt(ws, es, i - 1);
      StepTime(ws[i - 1], es[i - 1]);
    }
  }

  /**
   * A takeover with deadline d accepted at time t leaves a grace r: nothing when the deadline has
   * come, else the time to it, at most ten seconds.  The job has both gates off once the clock is
   * past t + r, and has made its one shutdown call once the clock is past t + r + 1, whatever the
   * outro, the SDK and the disconnect do.
   */
  lemma BoundedHandoff(ws: seq<World>, es: seq<Event>, i: nat, j: nat)
    requires IsPromptRun(ws, es) && i < j < |ws| && es[i].Data? && C.Accepts(ws[i].control, es[i].packet)
    requires es[i].packet.value.action.HumanAnswered? && !Muted(ws[i])
    ensures
      var d, t := es[i].packet.value.deadlineMs, ws[i].now;
      var r := if d <= t then 0 else if d - t > 10000 then 10000 else d - t;
      && (ws[j].now > t + r ==> !InputOn(ws[j]) && !OutputOn(ws[j]))
      && (ws[j].now > t + r + 1 ==> ws[j].control.shutdowns == 1 && ws[j].control.disconnects == 1)
  {
    RunKeeps(ws, es, i);
    assert StepAt(ws, es, i);
    DataApart(ws[i], es[i].packet, es[i].lost);
    PromptKeeps(ws, es, i + 1);
    AcceptedStops(ws, es, i);
    StoppingRuns(ws, es, i + 1, j);
    PromptKeeps(ws, es, j);
    RunKeeps(ws, es, j);
  }

  lemma AcceptedStops(ws: seq<World>, es: seq<Event>, i: nat)
    requires IsPromptRun(ws, es) && i < |es| && es[i].Data? && C.Accepts(ws[i].control, es[i].packet)
    requires es[i].packet.value.action.HumanAnswered? && !Muted(ws[i])
    ensures ws[i + 1].control.stopping
    ensures ws[i + 1].log.takeover == Some(Takeover(ws[i].now, C.Grace(es[i].packet.value.deadlineMs, ws[i].now)))
  {
    RunKeeps(ws, es, i);
    assert StepAt(ws, es, i);
    DataApart(ws[i], es[i].packet, es[i].lost);
    PromptKeeps(ws, es, i + 1);
  }

  // ----- how long an announcement may last -----

  /** The armed timer of the current announcement has not run out. */
  ghost predicate Ahead(c: C.ControlState, now: int) {
    c.current.Some? && c.current.value < |c.announcements| && c.announcements[c.current.value].timer.Armed? ==>
      now <= c.announcements[c.current.value].timer.when
  }

  lemma AnnounceAhead(c: C.ControlState, i: nat, now: int, raised: bool)
    requires C.Inv(c) && i < |c.announcements| && !c.announcements[i].pc.Finished? && Ahead(c, now)
    ensures Ahead(C.ResumeAnnouncement(c, i, now, raised), now)
  {
    E.ResumeOne(c, i, now, raised);
  }

  lemma SayAhead(c: C.ControlState, i: nat, now: int)
    requires C.Inv(c) && i < |c.announcements| && !c.announcements[i].pc.Finished? && Ahead(c, now)
    ensures Ahead(C.FailedSay(c, i), now)
  {
  }

  lemma StopAhead(c: C.ControlState, now: int)
    requires C.StopMayResume(c, now) && Ahead(c, now)
    ensures Ahead(C.ResumeStop(c, now), now)
  {
  }

  lemma TaskAhead(w: World, e: Event)
    requires Inv(w) && Enabled(w, e) && IsTask(e) && Ahead(w.control, w.now)
    ensures Ahead(Next(w, e).control, Next(w, e).now)
  {
    match e
    case AnnounceStep(i, raised) => AnnounceAhead(w.control, i, w.now, raised);
    case AnnounceSayFails(i) => SayAhead(w.control, i, w.now);
    case StopStep => StopAhead(w.control, w.now);
    case _ =>
  }

  lemma AnsweredAhead(c: C.ControlState, deadlineMs: int, now: int, lost: nat)
    requires C.Inv(c) && !c.stopping && Ahead(c, now) && (c.current.Some? ==> c.ready)
    ensures Ahead(C.Answered(c, deadlineMs, now, lost), now)
  {
    var p := C.Prepare(c, deadlineMs, now, lost);
    assert Ahead(p, now);
  }

  lemma ReceiveAhead(c: C.ControlState, packet: Option<C.Command>, now: int, lost: nat)
    requires C.Inv(c) && Ahead(c, now) && (c.current.Some? ==> c.ready)
    ensures Ahead(C.Receive(c, packet, now, lost), now)
  {
    if C.Accepts(c, packet) {
      var cmd := packet.value;
      var d := c.(seen := C.Remember(c.seen, cmd.id));
      E.RememberInv(c, d.seen);
      match cmd.action
      case HumanAnswered => AnsweredAhead(d, cmd.deadlineMs, now, lost);
      case TransferRequested => StartAhead(d.(transferring := true, deadlineMs := cmd.deadlineMs), now);
      case TransferFailed => FailedAhead(d, cmd.deadlineMs, now);
    }
  }

  lemma StartAhead(c: C.ControlState, now: int)
    requires Ahead(c, now)
    ensures Ahead(C.StartAnnouncement(c, now), now)
  {
  }

  lemma FailedAhead(c: C.ControlState, deadlineMs: int, now: int)
    requires Ahead(c, now)
    ensures Ahead(C.Failed(c, deadlineMs, now), now)
  {
  }

  lemma DataAhead(w: World, e: Event)
    requires Inv(w) && Enabled(w, e) && e.Data? && Ahead(w.control, w.now)
    ensures Ahead(Next(w, e).control, Next(w, e).now)
  {
    if !Muted(w) {
      ReceiveAhead(w.control, e.packet, w.now, e.lost);
      AbortLeaves(Deliver(w, e.packet, e.lost));
    }
  }

  lemma EnableAhead(w: World, greetingFails: bool)
    requires Ahead(w.control, w.now)
    ensures Ahead(Enable(w, greetingFails).control, Enable(w, greetingFails).now)
  {
    StartAhead(w.control.(ready := true), w.now);
  }

  lemma AudioAhead(w: World, s: A.Subscription, localKnown: bool)
    requires Ahead(w.control, w.now)
    ensures Ahead(AfterAudio(w, s, localKnown).control, AfterAudio(w, s, localKnown).now)
  {
    AbortLeaves(w.(adm := s.state));
  }

  lemma StartupAhead(w: World, e: Event)
    requires Enabled(w, e) && e.StartupStep? && Ahead(w.control, w.now)
    ensures Ahead(Next(w, e).control, Next(w, e).now)
  {
    match w.startup
    case Starting =>
      AudioAhead(w.(log := w.log.(sessionStarted := true)), A.SubscribeAudio(w.adm, w.room, e.failing), e.localKnown);
    case Subscribing => AudioAhead(w, A.SubscribeTurn(w.adm, w.room, e.failing), e.localKnown);
    case Publishing => EnableAhead(w, e.greetingFails);
    case _ =>
  }

  lemma RoomAhead(w: World, e: Event)
    requires Enabled(w, e) && IsRoomEvent(e) && Ahead(w.control, w.now)
    ensures Ahead(Next(w, e).control, Next(w, e).now)
  {
    RoomControl(w, e);
    assert Next(w, e).now == w.now;
  }

  lemma TickAhead(w: World)
    requires C.Inv(w.control) && Ahead(w.control, w.now) && !Due(w)
    ensures Ahead(w.control, w.now + 1)
  {
    if w.control.current.Some? { assert !C.TimerDue(w.control, w.control.current.value, w.now); }
  }

  lemma OthersAhead(w: World, e: Event)
    requires Enabled(w, e) && Ahead(w.control, w.now)
    requires !IsTask(e) && !IsRoomEvent(e) && !e.Data? && !e.StartupStep? && !e.Tick?
    ensures Ahead(Next(w, e).control, Next(w, e).now)
  {
    AbortLeaves(w);
    CleanupLeaves(w);
    EntryLeaves(w);
  }

  lemma StepAhead(w: World, e: Event)
    requires Inv(w) && Enabled(w, e) && (e.Tick? ==> !Due(w)) && Ahead(w.control, w.now)
    ensures Ahead(Next(w, e).control, Next(w, e).now)
  {
    if IsTask(e) { TaskAhead(w, e); }
    else if IsRoomEvent(e) { RoomAhead(w, e); }
    else if e.Data? { DataAhead(w, e); }
    else if e.StartupStep? { StartupAhead(w, e); }
    else if e.Tick? { TickAhead(w); }
    else { OthersAhead(w, e); }
  }

  lemma AheadNext(ws: seq<World>, es: seq<Event>, i: nat)
    requires IsPromptRun(ws, es) && i < |es| && Ahead(ws[i].control, ws[i].now)
    ensures Ahead(ws[i + 1].control, ws[i + 1].now)
  {
    RunKeeps(ws, es, i);
    assert StepAt(ws, es, i);
    StepAhead(ws[i], es[i]);
  }

  lemma {:induction false} AheadRuns(ws: seq<World>, es: seq<Event>, i: nat)
    requires IsPromptRun(ws, es) && i < |ws|
    ensures Ahead(ws[i].control, ws[i].now)
  {
    if i > 0 {
      AheadRuns(ws, es, i - 1);
      AheadNext(ws, es, i - 1);
    }
  }

  /** In a prompt run an announcement that has begun is cut when its deadline, or a takeover's, has come. */
  lemma AnnouncementCut(ws: seq<World>, es: seq<Event>, i: nat)
    requires IsPromptRun(ws, es) && i < |ws| && ws[i].control.current.Some?
    ensures
      var t := ws[i].control.announcements;
      && ws[i].control.current.value < |t|
      && (!t[ws[i].control.current.value].pc.Created? && ws[i].now > ws[i].control.deadlineMs + 1 ==>
            t[ws[i].control.current.value].cancelled)
  {
    RunKeeps(ws, es, i);
    AheadRuns(ws, es, i);
  }
}
