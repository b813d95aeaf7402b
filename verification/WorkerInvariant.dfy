/** Every step of the composed job keeps the invariant. */
module WorkerInvariant {
  import opened Wrappers
  import opened Worker
  import C = Control
  import A = Admission

  /** The parts that an abort does not disturb. */
  ghost predicate Kept(w: World) {
    CoreInv(w) && StartupInv(w) && GreetingInv(w)
  }

  lemma AbortKeeps(w: World)
    requires Kept(w)
    ensures !Muted(w) ==> Inv(Abort(w))
    ensures Muted(w) ==> Abort(w) == w
  {
    if !Muted(w) {
      C.SilenceKeeps(w.control, w.control.ready);
      assert w.control.(ready := w.control.ready) == w.control;
    }
  }

  lemma CleanupKeeps(w: World)
    requires Inv(w)
    ensures Inv(Cleanup(w))
  {
    if !w.cleaned {
      C.SilenceKeeps(w.control, false);
      A.CloseKeeps(w.adm);
    }
  }

  lemma DeliverKeeps(w: World, packet: Option<C.Command>, lost: nat)
    requires Inv(w) && !Muted(w) && C.LossOk(packet, w.now, lost)
    ensures Kept(Deliver(w, packet, lost)) && WakeupInv(Deliver(w, packet, lost))
    ensures var c := Deliver(w, packet, lost).control; !(c.stopping && !c.ready) ==> SafeInv(Deliver(w, packet, lost))
  {
    var v := Deliver(w, packet, lost);
    assert v.control == C.Receive(w.control, packet, w.now, lost);
    C.ReceiveKeeps(w.control, packet, w.now, lost);
    C.ReceiveFrame(w.control, packet, w.now, lost);
    if C.Accepts(w.control, packet) {
      C.RememberKeeps(w.control.seen, w.log.accepted, packet.value);
    }
    assert Greetings(v) == Greetings(w);
    assert StartupInv(v);
  }

  lemma DataKeeps(w: World, packet: Option<C.Command>, lost: nat)
    requires Inv(w) && C.LossOk(packet, w.now, lost)
    ensures Inv(OnData(w, packet, lost))
  {
    if !Muted(w) {
      DeliverKeeps(w, packet, lost);
      AbortKeeps(Deliver(w, packet, lost));
    }
  }

  /** What an admission handler may do to the admission state. */
  ghost predicate Handles(w: World, room: A.Room, h: A.Handled) {
    && A.Inv(h.state) && A.RoomOk(room)
    && h.state.leg == w.adm.leg && h.state.closed == w.adm.closed && h.state.authorized == w.adm.authorized
    && h.state.connected == w.adm.connected && h.state.attribute == w.adm.attribute
    && (!h.abort && A.Valid(w.adm, w.room) ==> A.Valid(h.state, room))
    && (!h.abort && !Muted(w) && !h.state.changed ==>
          (w.startup.Waiting? ==> !A.WaitWouldAct(h.state, room))
          && (w.startup.Subscribing? ==> !A.AudioWouldAct(h.state, room)))
  }

  lemma RoomKeeps(w: World, room: A.Room, h: A.Handled)
    requires Inv(w) && A.RoomOk(room) && (!w.cleaned ==> Handles(w, room, h))
    ensures Inv(OnRoom(w, room, h))
  {
    if !w.cleaned {
      var v := w.(room := room, adm := h.state);
      assert Kept(v);
      AbortKeeps(v);
    }
  }

  ghost predicate SameRooms(r: A.Room, s: A.Room) {
    |s| == |r| && forall i :: 0 <= i < |r| ==> SameButTracks(r[i], s[i])
  }

  lemma {:induction false} SameSips(r: A.Room, s: A.Room)
    requires SameRooms(r, s)
    ensures SameRooms(A.Sips(r), A.Sips(s))
  {
    if r != [] {
      SameSips(r[1..], s[1..]);
      assert SameButTracks(r[0], s[0]);
      SameCons(r[0], s[0], A.Sips(r[1..]), A.Sips(s[1..]));
    }
  }

  lemma SameCons(p: A.Participant, q: A.Participant, r: A.Room, s: A.Room)
    requires SameButTracks(p, q) && SameRooms(r, s)
    ensures SameRooms([p] + r, [q] + s)
  {
  }

  lemma TrackRoom(w: World, room: A.Room, pub: A.Publication, who: A.Participant)
    requires Inv(w) && TrackChange(w.room, room, pub, who)
    ensures A.RoomOk(room)
    ensures forall a :: A.Valid(a, room) <==> A.Valid(a, w.room)
    ensures forall a :: A.WaitWouldAct(a, room) <==> A.WaitWouldAct(a, w.room)
  {
    SameSips(w.room, room);
  }

  /** A track event does not change which leg is valid. */
  lemma TrackValid(before: A.AdmissionState, a: A.AdmissionState, rooms: A.Room, room: A.Room, pub: A.Publication,
                   who: A.Participant)
    requires TrackChange(rooms, room, pub, who)
    requires a.leg == before.leg && a.closed == before.closed && a.attribute == before.attribute
    ensures A.Valid(a, room) <==> A.Valid(before, rooms)
  {
    SameSips(rooms, room);
  }

  /** After a track event only the announced publication can give a pending subscription work. */
  lemma TrackQuiet(w: World, a: A.AdmissionState, room: A.Room, pub: A.Publication, who: A.Participant)
    requires TrackChange(w.room, room, pub, who)
    requires !A.AudioWouldAct(w.adm, w.room)
    requires a.leg == w.adm.leg && a.closed == w.adm.closed && a.attribute == w.adm.attribute
    requires w.adm.requested <= a.requested
    requires A.BoundAudio(a, pub, who.identity, who.sid) ==> !pub.track && pub.sid in a.requested
    ensures !A.AudioWouldAct(a, room)
  {
    TrackValid(w.adm, a, w.room, room, pub, who);
    forall p, q | p in room && q in p.tracks ensures A.Settled(a, p, q) {
      TrackSettled(w, a, room, pub, who, p, q);
    }
  }

  /** A publication after the event was there before it, or is the announced one. */
  lemma TrackSettled(w: World, a: A.AdmissionState, room: A.Room, pub: A.Publication, who: A.Participant,
                     p: A.Participant, q: A.Publication)
    requires TrackChange(w.room, room, pub, who) && !A.AudioWouldAct(w.adm, w.room)
    requires a.leg == w.adm.leg && w.adm.requested <= a.requested
    requires A.BoundAudio(a, pub, who.identity, who.sid) ==> !pub.track && pub.sid in a.requested
    requires p in room && q in p.tracks
    ensures A.Settled(a, p, q)
  {
    TrackOld(w.room, room, pub, who, p, q);
    if !(p == who && q == pub) {
      var o :| o in w.room && q in o.tracks && o.identity == p.identity && o.sid == p.sid;
      assert A.Settled(w.adm, o, q);
    }
  }

  lemma TrackOld(before: A.Room, room: A.Room, pub: A.Publication, who: A.Participant, p: A.Participant,
                 q: A.Publication)
    requires TrackChange(before, room, pub, who) && p in room && q in p.tracks
    ensures (p == who && q == pub)
            || exists o :: o in before && q in o.tracks && o.identity == p.identity && o.sid == p.sid
  {
    var i :| 0 <= i < |room| && room[i] == p;
    assert before[i] in before && SameButTracks(before[i], room[i]) && TracksFrom(before[i], room[i], pub, who);
  }

  lemma TrackPublishedKeeps(w: World, room: A.Room, pub: A.Publication, who: A.Participant, failing: set<string>)
    requires Inv(w) && TrackChange(w.room, room, pub, who)
    ensures Inv(OnRoom(w, room, A.TrackPublished(w.adm, room, pub, who, failing)))
  {
    TrackRoom(w, room, pub, who);
    A.TrackPublishedKeeps(w.adm, room, pub, who, failing);
    RoomKeeps(w, room, A.TrackPublished(w.adm, room, pub, who, failing));
  }

  lemma TrackSubscribedKeeps(w: World, room: A.Room, pub: A.Publication, who: A.Participant)
    requires Inv(w) && TrackChange(w.room, room, pub, who)
    ensures Inv(OnRoom(w, room, A.TrackSubscribed(w.adm, pub, who)))
  {
    TrackRoom(w, room, pub, who);
    var h := A.TrackSubscribed(w.adm, pub, who);
    if !h.state.changed && !Muted(w) && w.startup.Subscribing? {
      TrackQuiet(w, h.state, room, pub, who);
    }
    RoomKeeps(w, room, h);
  }

  /** A bound publication that loses its track had been asked for. */
  lemma WasSettled(w: World, pub: A.Publication, who: A.Participant)
    requires WasThere(w.room, pub, who) && A.AllSettled(w.adm, w.room)
    ensures A.BoundAudio(w.adm, pub, who.identity, who.sid) ==> !pub.track && pub.sid in w.adm.requested
  {
    var p, q :| p in w.room && p.identity == who.identity && p.sid == who.sid
                && q in p.tracks && q.(track := false) == pub;
    assert A.Settled(w.adm, p, q);
  }

  lemma TrackUnsubscribedKeeps(w: World, room: A.Room, pub: A.Publication, who: A.Participant)
    requires Inv(w) && TrackChange(w.room, room, pub, who) && WasThere(w.room, pub, who)
    ensures Inv(OnRoom(w, room, A.TrackUnsubscribed(w.adm, pub, who)))
  {
    TrackRoom(w, room, pub, who);
    var h := A.TrackUnsubscribed(w.adm, pub, who);
    if !h.state.changed && !Muted(w) && w.startup.Subscribing? {
      WasSettled(w, pub, who);
      TrackQuiet(w, h.state, room, pub, who);
    }
    RoomKeeps(w, room, h);
  }

  lemma AfterWaitKeeps(w: World)
    requires Inv(w) && (w.startup.Connecting? || w.startup.Waiting?) && !w.startupCancel
    ensures Inv(AfterWait(w))
  {
  }

  lemma CreateSessionKeeps(w: World, transferStatement: string, failedStatement: string)
    requires Inv(w) && w.startup.Authorizing? && !w.startupCancel
    ensures Inv(CreateSession(w, transferStatement, failedStatement))
  {
    var v := CreateSession(w, transferStatement, failedStatement);
    assert forall j: nat :: C.Live(v.control, j) <==> C.Live(w.control, j);
  }

  lemma AfterAudioKeeps(w: World, s: A.Subscription, localKnown: bool)
    requires Kept(w) && SafeInv(w) && !Muted(w) && !w.startupCancel
    requires w.startup.Starting? || w.startup.Subscribing?
    requires w.log.sessionStarted
    requires A.Inv(s.state) && s.state.leg == w.adm.leg && s.state.closed == w.adm.closed
               && s.state.attribute == w.adm.attribute
    requires if s.outcome.Unavailable? then !s.abort else s.state.authorized
    requires s.outcome.Pending? ==> !A.AudioWouldAct(s.state, w.room)
    requires s.outcome.Connected? ==> s.state.connected
    ensures Inv(AfterAudio(w, s, localKnown))
  {
    var x := AfterAudio(w, s, localKnown);
    if s.abort {
      var u := w.(adm := s.state, startup := Subscribing);
      AbortKeeps(u);
      assert x == Abort(u).(startup := x.startup);
    }
  }

  lemma StartingKeeps(w: World, e: Event)
    requires Inv(w) && e.StartupStep? && (w.startup.Starting? || w.startup.Subscribing?) && !w.startupCancel
    ensures Inv(StartupNext(w, e))
  {
    var v := w.(log := w.log.(sessionStarted := true));
    if w.startup.Starting? {
      var s := A.SubscribeAudio(w.adm, w.room, e.failing);
      if A.Valid(w.adm, w.room) {
        A.SubscribeTurnKeeps(w.adm.(authorized := true), w.room, e.failing);
      }
      AfterAudioKeeps(v, s, e.localKnown);
    } else {
      A.SubscribeTurnKeeps(w.adm, w.room, e.failing);
      AfterAudioKeeps(w, A.SubscribeTurn(w.adm, w.room, e.failing), e.localKnown);
    }
  }

  /** Activation keeps the handler's invariant and starts what was pending. */
  lemma ActivateKeeps(c: C.ControlState, now: int)
    requires C.Inv(c) && C.GateInv(c, false) && !c.stopping && !c.ready && c.current.None? && c.session.Some?
    ensures
      var d := C.Activate(c, now);
      && C.Inv(d) && d.ready && d.session.Some?
      && (!C.ActivateResult(c) ==> C.GateInv(d, false))
      && (C.ActivateResult(c) ==> d == c.(ready := true))
  {
    var d := c.(ready := true);
    assert C.Inv(d) by { assert forall j: nat :: C.Live(d, j) <==> C.Live(c, j); }
    if c.transferring { C.StartKeeps(d, now); }
  }

  lemma GreetKeeps(c: C.ControlState)
    requires C.Inv(c) && C.Screening(c) && c.current.None?
    ensures
      var d := C.Say(C.SetGates(c, true, true), C.Greeting);
      C.Inv(d) && C.GateInv(d, false) && d.(session := c.session) == c
  {
    var d := C.Say(C.SetGates(c, true, true), C.Greeting);
    assert forall j: nat :: C.Live(d, j) <==> C.Live(c, j);
  }

  lemma EnableKeeps(w: World, greetingFails: bool)
    requires Inv(w) && w.startup.Publishing? && !w.startupCancel
    ensures Inv(Enable(w, greetingFails))
  {
    if A.Valid(w.adm, w.room) && !w.control.stopping {
      ActivateKeeps(w.control, w.now);
      C.ActivateFrame(w.control, w.now);
      C.StartFrame(w.control.(ready := true), w.now);
      if C.ActivateResult(w.control) { GreetKeeps(w.control.(ready := true)); }
    }
  }

  lemma StartupKeeps(w: World, e: Event)
    requires Inv(w) && e.StartupStep? && Enabled(w, e)
    ensures Inv(Next(w, e))
  {
    match w.startup
    case Connecting => AfterWaitKeeps(w);
    case Waiting => AfterWaitKeeps(w);
    case Authorizing => CreateSessionKeeps(w, e.transferStatement, e.failedStatement);
    case Starting => StartingKeeps(w, e);
    case Subscribing => StartingKeeps(w, e);
    case Publishing => EnableKeeps(w, e.greetingFails);
  }

  lemma EntryKeeps(w: World)
    requires Inv(w) && !Pending(w.startup)
    ensures Inv(EntryNext(w))
  {
    AbortKeeps(w);
    var v := AbortIf(w, w.startup.Raised? || w.startupCancel);
    CleanupKeeps(v.(entryDone := true));
  }

  lemma TaskControl(w: World, e: Event)
    requires Inv(w) && Enabled(w, e) && IsTask(e)
    ensures C.Inv(TaskNext(w, e)) && C.GateInv(TaskNext(w, e), Muted(w))
    ensures C.TaskFrame(w.control, TaskNext(w, e))
  {
    var c := w.control;
    match e
    case AnnounceStep(i, raised) =>
      C.ResumeKeeps(c, i, w.now, raised);
      C.ResumeFrame(c, i, w.now, raised);
    case AnnounceSayFails(i) =>
      C.FailedSayKeeps(c, i);
      C.FailedSayFrame(c, i);
    case AnnounceTimer(i) => C.FireKeeps(c, i, w.now);
    case StopStep =>
      C.ResumeStopKeeps(c, w.now);
      C.ResumeStopFrame(c, w.now);
    case StopCancel => C.CancelStopKeeps(c);
  }

  lemma TaskKeeps(w: World, e: Event)
    requires Inv(w) && Enabled(w, e) && IsTask(e)
    ensures Inv(Next(w, e))
  {
    TaskInv(w, e);
  }

  lemma TaskInv(w: World, e: Event)
    requires Inv(w) && Enabled(w, e) && IsTask(e)
    ensures Inv(w.(control := TaskNext(w, e)))
  {
    TaskControl(w, e);
    var v := w.(control := TaskNext(w, e));
    assert Greetings(v) == Greetings(w);
  }

  lemma CloseControlKeeps(w: World)
    requires Inv(w) && w.cleaned
    ensures Inv(w.(control := C.CancelAnnouncement(w.control), closing := Some(w.now + 2000)))
  {
    C.CloseKeeps(w.control);
  }

  lemma RoomEventKeeps(w: World, e: Event)
    requires Inv(w) && Enabled(w, e) && IsRoomEvent(e)
    ensures Inv(Next(w, e))
  {
    match e
    case RoomChanged(room) => RoomKeeps(w, room, A.Changed(w.adm, room));
    case ParticipantLeft(room, sid) => RoomKeeps(w, room, A.Disconnected(w.adm, room, sid));
    case RoomDisconnected(room) => RoomKeeps(w, room, A.Handled(w.adm, true));
    case TrackPublished(room, pub, who, failing) => TrackPublishedKeeps(w, room, pub, who, failing);
    case TrackSubscribed(room, pub, who) => TrackSubscribedKeeps(w, room, pub, who);
    case TrackFailed(sid, trackSid) => RoomKeeps(w, w.room, A.SubscriptionFailed(w.adm, sid, trackSid));
    case TrackUnsubscribed(room, pub, who) => TrackUnsubscribedKeeps(w, room, pub, who);
  }

  lemma LoopKeeps(w: World, e: Event)
    requires Inv(w) && Enabled(w, e) && !IsRoomEvent(e) && !IsTask(e) && !e.StartupStep?
    ensures Inv(Next(w, e))
  {
    match e
    case Tick =>
    case Data(packet, lost) => DataKeeps(w, packet, lost);
    case SessionClosed => AbortKeeps(w);
    case PublisherFailed => AbortKeeps(w);
    case StartupRaises =>
    case EntryResumes => EntryKeeps(w);
    case JobShutdown => CleanupKeeps(w);
    case CloseControl => CloseControlKeeps(w);
  }

  lemma StepKeeps(w: World, e: Event)
    requires Inv(w) && Enabled(w, e)
    ensures Inv(Next(w, e))
  {
    if IsRoomEvent(e) { RoomEventKeeps(w, e); }
    else if IsTask(e) { TaskKeeps(w, e); }
    else if e.StartupStep? { StartupKeeps(w, e); }
    else { LoopKeeps(w, e); }
  }

  lemma BeginHolds(now: int, room: A.Room, attribute: string)
    requires A.RoomOk(room)
    ensures Inv(Begin(now, room, attribute))
  {
  }

  // ----- what the kinds of step leave alone -----

  /** The takeover's own facts, what was accepted and published, and the greeting. */
  ghost predicate Apart(w: World, v: World) {
    && v.log.(aborts := w.log.aborts) == w.log
    && v.control.stopping == w.control.stopping && v.control.stopsCreated == w.control.stopsCreated
    && v.control.transferring == w.control.transferring
    && v.control.seen == w.control.seen && Greetings(v) == Greetings(w)
  }

  /** All of the handler but its session and readiness, the clock, and what is subscribed. */
  ghost predicate Leaves(w: World, v: World) {
    && v.now == w.now && v.log.takeover == w.log.takeover && v.closing == w.closing
    && v.control.(session := w.control.session, ready := w.control.ready) == w.control
    && v.adm.subscribed == w.adm.subscribed
  }

  lemma AbortLeaves(w: World)
    ensures Leaves(w, Abort(w))
  {
  }

  lemma CleanupLeaves(w: World)
    ensures Leaves(w, Cleanup(w))
  {
  }

  lemma EntryLeaves(w: World)
    ensures Leaves(w, EntryNext(w))
  {
    AbortLeaves(w);
    CleanupLeaves(AbortIf(w, w.startup.Raised? || w.startupCancel).(entryDone := true));
  }

  lemma AbortApart(w: World)
    ensures Apart(w, Abort(w))
  {
  }

  lemma CleanupApart(w: World)
    ensures Apart(w, Cleanup(w))
  {
  }

  lemma RoomApart(w: World, room: A.Room, h: A.Handled)
    ensures Apart(w, OnRoom(w, room, h))
    ensures OnRoom(w, room, h).control.ready == w.control.ready
  {
    AbortApart(w.(room := room, adm := h.state));
  }

  lemma RoomEventApart(w: World, e: Event)
    requires Enabled(w, e) && IsRoomEvent(e)
    ensures Apart(w, Next(w, e)) && Next(w, e).control.ready == w.control.ready
  {
    match e
    case RoomChanged(room) => RoomApart(w, room, A.Changed(w.adm, room));
    case ParticipantLeft(room, sid) => RoomApart(w, room, A.Disconnected(w.adm, room, sid));
    case RoomDisconnected(room) => RoomApart(w, room, A.Handled(w.adm, true));
    case TrackPublished(room, pub, who, failing) =>
      RoomApart(w, room, A.TrackPublished(w.adm, room, pub, who, failing));
    case TrackSubscribed(room, pub, who) => RoomApart(w, room, A.TrackSubscribed(w.adm, pub, who));
    case TrackFailed(sid, trackSid) => RoomApart(w, w.room, A.SubscriptionFailed(w.adm, sid, trackSid));
    case TrackUnsubscribed(room, pub, who) => RoomApart(w, room, A.TrackUnsubscribed(w.adm, pub, who));
  }

  lemma TaskApart(w: World, e: Event)
    requires Inv(w) && Enabled(w, e) && IsTask(e)
    ensures Apart(w, w.(control := TaskNext(w, e))) && TaskNext(w, e).ready == w.control.ready
  {
    TaskControl(w, e);
  }

  lemma EntryApart(w: World)
    ensures Apart(w, EntryNext(w))
    ensures !Muted(EntryNext(w)) ==> EntryNext(w).control.ready == w.control.ready
  {
    AbortApart(w);
    CleanupApart(AbortIf(w, w.startup.Raised? || w.startupCancel).(entryDone := true));
  }

  /** Every step but a packet and a startup step. */
  lemma OtherApart(w: World, e: Event)
    requires Inv(w) && Enabled(w, e) && !e.Data? && !e.StartupStep?
    ensures Apart(w, Next(w, e))
    ensures !Muted(Next(w, e)) ==> Next(w, e).control.ready == w.control.ready
  {
    if IsTask(e) { TaskStepApart(w, e); }
    else if IsRoomEvent(e) { RoomEventApart(w, e); }
    else if e.EntryResumes? { EntryStepApart(w, e); }
    else { LoopApart(w, e); }
  }

  lemma TaskStepApart(w: World, e: Event)
    requires Inv(w) && Enabled(w, e) && IsTask(e)
    ensures Apart(w, Next(w, e)) && Next(w, e).control.ready == w.control.ready
  {
    TaskApart(w, e);
    NextOfTask(w, e);
  }

  lemma NextOfTask(w: World, e: Event)
    requires Enabled(w, e) && IsTask(e)
    ensures Next(w, e) == w.(control := TaskNext(w, e))
  {
  }

  lemma EntryStepApart(w: World, e: Event)
    requires Enabled(w, e) && e.EntryResumes?
    ensures Apart(w, Next(w, e))
    ensures !Muted(Next(w, e)) ==> Next(w, e).control.ready == w.control.ready
  {
    EntryApart(w);
  }

  lemma LoopApart(w: World, e: Event)
    requires Enabled(w, e)
    requires e.Tick? || e.StartupRaises? || e.CloseControl? || e.JobShutdown? || e.SessionClosed? || e.PublisherFailed?
    ensures Apart(w, Next(w, e))
    ensures !Muted(Next(w, e)) ==> Next(w, e).control.ready == w.control.ready
  {
    if e.JobShutdown? { CleanupApart(w); }
    else if e.SessionClosed? || e.PublisherFailed? { AbortApart(w); }
  }

  /** What a startup step leaves alone. */
  ghost predicate Quiet(w: World, v: World) {
    && v.log.accepted == w.log.accepted && v.log.takeover == w.log.takeover
    && v.control.stopping == w.control.stopping && v.control.stopsCreated == w.control.stopsCreated
    && v.control.transferring == w.control.transferring && v.control.seen == w.control.seen
  }

  lemma SubscriptionApart(w: World, outcome: A.AudioOutcome, localKnown: bool)
    ensures
      var v := AfterSubscription(w, outcome, localKnown);
      v.control == w.control && v.log.(readiness := w.log.readiness) == w.log
  {
  }

  lemma AudioApart(w: World, s: A.Subscription, localKnown: bool)
    ensures Quiet(w, AfterAudio(w, s, localKnown)) && Greetings(AfterAudio(w, s, localKnown)) == Greetings(w)
  {
    var v := w.(adm := s.state);
    AbortApart(v);
    SubscriptionApart(AbortIf(v, s.abort), s.outcome, localKnown);
  }

  lemma EnableApart(w: World, greetingFails: bool)
    ensures Quiet(w, Enable(w, greetingFails)) && Enable(w, greetingFails).log.readiness == w.log.readiness
  {
    C.ActivateFrame(w.control, w.now);
    C.GreetFrame(C.Activate(w.control, w.now));
  }

  lemma EnableAfterTakeover(w: World, greetingFails: bool)
    ensures w.control.stopping ==> Greetings(Enable(w, greetingFails)) == Greetings(w)
  {
  }

  /** Readiness is published only past every check. */
  lemma AudioReady(w: World, s: A.Subscription, localKnown: bool)
    ensures
      var v := AfterAudio(w, s, localKnown);
      v.log.readiness != w.log.readiness ==>
        && v.log.readiness == w.log.readiness + 1 && v.startup.Publishing?
        && A.Valid(v.adm, v.room) && !v.aborted && !v.control.stopping
  {
    AbortApart(w.(adm := s.state));
  }

  /** A startup step accepts nothing and touches no takeover. */
  lemma StartupApart(w: World, e: Event)
    requires Inv(w) && Enabled(w, e) && e.StartupStep?
    ensures Quiet(w, Next(w, e))
    ensures w.control.stopping || !w.startup.Publishing? ==> Greetings(Next(w, e)) == Greetings(w)
    ensures !w.startup.Starting? && !w.startup.Subscribing? ==> Next(w, e).log.readiness == w.log.readiness
  {
    match w.startup
    case Starting =>
      AudioApart(w.(log := w.log.(sessionStarted := true)), A.SubscribeAudio(w.adm, w.room, e.failing), e.localKnown);
    case Subscribing => AudioApart(w, A.SubscribeTurn(w.adm, w.room, e.failing), e.localKnown);
    case Publishing =>
      EnableApart(w, e.greetingFails);
      EnableAfterTakeover(w, e.greetingFails);
    case _ =>
  }

  /** A packet is delivered, or nothing happens; a packet that is not accepted can at most abort. */
  lemma DataApart(w: World, packet: Option<C.Command>, lost: nat)
    requires Inv(w) && C.LossOk(packet, w.now, lost)
    ensures
      var v := OnData(w, packet, lost);
      && Greetings(v) == Greetings(w) && v.log.readiness == w.log.readiness && v.startup == w.startup
      && (Muted(w) ==> v == w)
      && (!Muted(w) ==> v.log.(aborts := w.log.aborts) == Record(w, packet))
      && (!Muted(w) && !C.Accepts(w.control, packet) ==> v == w)
      && (!Muted(v) ==> v.control == C.Receive(w.control, packet, w.now, lost))
  {
    if !Muted(w) {
      C.ReceiveFrame(w.control, packet, w.now, lost);
      AbortApart(Deliver(w, packet, lost));
      assert Greetings(Deliver(w, packet, lost)) == Greetings(w);
    }
  }
}
