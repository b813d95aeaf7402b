/**
 * The composed job of src/aida_agent/worker.py: the startup coroutine, room events, takeover
 * packets, the announcement and stop tasks, abort and cleanup, in any interleaving.
 */
module Worker {
  import opened Wrappers
  import C = Control
  import A = Admission

  /** Where the startup coroutine is suspended, or how it ended. */
  datatype Startup =
    | Connecting | Waiting | Authorizing | Starting | Subscribing | Publishing
    | Returned | Raised

  /** What has happened, kept beside the state so that claims over whole runs can be stated. */
  datatype Log = Log(
    accepted: seq<C.Command>,
    readiness: nat,             // agent_ready publications
    profileAuthorized: bool,
    sessionStarted: bool,
    aborts: nat,
    takeover: Option<Takeover>)

  /** The accepted human_answered command: when, and how much grace it left. */
  datatype Takeover = Takeover(at: int, grace: int)

  datatype World = World(
    now: int,
    room: A.Room,
    adm: A.AdmissionState,
    control: C.ControlState,
    startup: Startup,
    startupCancel: bool,        // a cancellation the coroutine's next resumption will raise
    entryDone: bool,            // entrypoint's await of startup has returned
    aborted: bool,
    cleaned: bool,
    closing: Option<int>,       // when cleanup's two seconds for control.close() run out
    log: Log)

  datatype Event =
    | Tick
    | Data(packet: Option<C.Command>, lost: nat)
    | RoomChanged(room: A.Room)
    | ParticipantLeft(room: A.Room, sid: string)
    | RoomDisconnected(room: A.Room)
    | TrackPublished(room: A.Room, pub: A.Publication, who: A.Participant, failing: set<string>)
    | TrackSubscribed(room: A.Room, pub: A.Publication, who: A.Participant)
    | TrackFailed(sid: string, trackSid: string)
    | TrackUnsubscribed(room: A.Room, pub: A.Publication, who: A.Participant)
    | SessionClosed
    | PublisherFailed
    | StartupStep(transferStatement: string, failedStatement: string, failing: set<string>,
                  localKnown: bool, greetingFails: bool)
    | StartupRaises
    | EntryResumes
    | JobShutdown
    | CloseControl
    | AnnounceStep(task: nat, raised: bool)
    | AnnounceSayFails(task: nat)
    | AnnounceTimer(task: nat)
    | StopStep
    | StopCancel

  predicate Pending(s: Startup) { !s.Returned? && !s.Raised? }

  predicate Muted(w: World) { w.aborted || w.cleaned }

  // ----- the closures of entrypoint -----

  function Abort(w: World): World {
    if Muted(w) then w
    else w.(aborted := true, control := C.Silence(w.control),
            startupCancel := w.startupCancel || Pending(w.startup),
            log := w.log.(aborts := w.log.aborts + 1))
  }

  function AbortIf(w: World, b: bool): World { if b then Abort(w) else w }

  function Record(w: World, packet: Option<C.Command>): Log {
    if C.Accepts(w.control, packet) then
      w.log.(accepted := w.log.accepted + [packet.value],
             takeover := if packet.value.action.HumanAnswered?
                         then Some(Takeover(w.now, C.Grace(packet.value.deadlineMs, w.now)))
                         else w.log.takeover)
    else w.log
  }

  function Deliver(w: World, packet: Option<C.Command>, lost: nat): World {
    w.(control := C.Receive(w.control, packet, w.now, lost), log := Record(w, packet))
  }

  function OnData(w: World, packet: Option<C.Command>, lost: nat): World {
    if Muted(w) then w
    else
      var v := Deliver(w, packet, lost);
      AbortIf(v, v.control.stopping && !v.control.ready)
  }

  /** cleanup() up to its first await. */
  function Cleanup(w: World): World {
    if w.cleaned then w
    else w.(cleaned := true, adm := A.Close(w.adm),
            control := C.Silence(w.control.(ready := false)),
            startupCancel := w.startupCancel || Pending(w.startup))
  }

  /** A room mutation with the admission handler it triggers; closing removes the handlers. */
  function OnRoom(w: World, room: A.Room, h: A.Handled): World {
    if w.cleaned then w.(room := room)
    else AbortIf(w.(room := room, adm := h.state), h.abort)
  }

  function AfterWait(w: World): World {
    var (adm, outcome) := A.Wait(w.adm, w.room);
    w.(adm := adm,
       startup := match outcome case Ambiguous => Raised case Bound => Authorizing case Suspended => Waiting)
  }

  function CreateSession(w: World, transferStatement: string, failedStatement: string): World {
    if !A.Valid(w.adm, w.room) then w.(startup := Raised)
    else if w.aborted || w.control.stopping then w.(startup := Returned)
    else w.(startup := Starting, log := w.log.(profileAuthorized := true),
            control := w.control.(session := Some(C.SessionState(false, false, [])),
                                  transferStatement := transferStatement,
                                  failedStatement := failedStatement))
  }

  /** start_authorized from the end of subscribe_audio's loop to its next await. */
  function AfterSubscription(w: World, outcome: A.AudioOutcome, localKnown: bool): World {
    match outcome
    case Unavailable => w.(startup := Raised)
    case Pending => w.(startup := Subscribing)
    case Connected =>
      if !A.Valid(w.adm, w.room) then w.(startup := Raised)
      else if w.aborted || w.control.stopping then w.(startup := Returned)
      else if !localKnown then w.(startup := Raised)
      else w.(startup := Publishing, log := w.log.(readiness := w.log.readiness + 1))
  }

  function AfterAudio(w: World, s: A.Subscription, localKnown: bool): World {
    AfterSubscription(AbortIf(w.(adm := s.state), s.abort), s.outcome, localKnown)
  }

  function Enable(w: World, greetingFails: bool): World {
    if !A.Valid(w.adm, w.room) then w.(startup := Raised)
    else if w.aborted || w.control.stopping then w.(startup := Returned)
    else
      var c := C.Activate(w.control, w.now);
      if !C.ActivateResult(w.control) then w.(control := c, startup := Returned)
      else
        w.(control := C.Say(C.SetGates(c, true, true), C.Greeting),
           startup := if greetingFails then Raised else Returned)
  }

  // ----- the step relation -----

  ghost predicate SameButTracks(p: A.Participant, q: A.Participant) { q.(tracks := p.tracks) == p }

  ghost predicate TracksFrom(p: A.Participant, q: A.Participant, pub: A.Publication, who: A.Participant) {
    forall r :: r in q.tracks ==> r in p.tracks || (q == who && r == pub)
  }

  /** The tracks are all a track event changes, and only pub may be new. */
  ghost predicate TrackChange(room: A.Room, next: A.Room, pub: A.Publication, who: A.Participant) {
    && |next| == |room|
    && (forall i :: 0 <= i < |room| ==> SameButTracks(room[i], next[i]) && TracksFrom(room[i], next[i], pub, who))
  }

  /** A publication that lost its track was there before with the same sid, kind and source. */
  ghost predicate WasThere(room: A.Room, pub: A.Publication, who: A.Participant) {
    !pub.track
    && exists p, q :: (p in room && p.identity == who.identity && p.sid == who.sid
                       && q in p.tracks && q.(track := false) == pub)
  }

  ghost predicate Enabled(w: World, e: Event) {
    match e
    case Tick => true
    case Data(packet, lost) => C.LossOk(packet, w.now, lost)
    case RoomChanged(room) => A.RoomOk(room)
    case ParticipantLeft(room, _) => A.RoomOk(room)
    case RoomDisconnected(room) => A.RoomOk(room)
    case TrackPublished(room, pub, who, _) => TrackChange(w.room, room, pub, who)
    case TrackSubscribed(room, pub, who) => TrackChange(w.room, room, pub, who)
    case TrackFailed(_, _) => true
    case TrackUnsubscribed(room, pub, who) => TrackChange(w.room, room, pub, who) && WasThere(w.room, pub, who)
    case SessionClosed => w.control.session.Some?
    case PublisherFailed => w.control.session.Some?
    case StartupStep(_, _, _, _, _) =>
      Pending(w.startup) && !w.startupCancel
      && (w.startup.Waiting? || w.startup.Subscribing? ==> w.adm.changed)
    case StartupRaises => Pending(w.startup)
    case EntryResumes => !Pending(w.startup) && !w.entryDone
    case JobShutdown => true
    case CloseControl => w.cleaned && !Pending(w.startup) && w.closing.None?
    case AnnounceStep(i, _) => i < |w.control.announcements| && !w.control.announcements[i].pc.Finished?
    case AnnounceSayFails(i) => C.SayMayFail(w.control, i)
    case AnnounceTimer(i) => C.TimerDue(w.control, i, w.now)
    case StopStep => C.StopMayResume(w.control, w.now)
    case StopCancel => w.closing.Some? && w.closing.value <= w.now && C.StopMayCancel(w.control)
  }

  function StartupNext(w: World, e: Event): World
    requires e.StartupStep?
  {
    match w.startup
    case Connecting => AfterWait(w)
    case Waiting => AfterWait(w)
    case Authorizing => CreateSession(w, e.transferStatement, e.failedStatement)
    case Starting =>
      AfterAudio(w.(log := w.log.(sessionStarted := true)), A.SubscribeAudio(w.adm, w.room, e.failing), e.localKnown)
    case Subscribing => AfterAudio(w, A.SubscribeTurn(w.adm, w.room, e.failing), e.localKnown)
    case Publishing => Enable(w, e.greetingFails)
    case _ => w
  }

  /** entrypoint after its await of startup. */
  function EntryNext(w: World): World {
    var v := AbortIf(w, w.startup.Raised? || w.startupCancel);
    var u := v.(entryDone := true);
    if u.aborted || (u.control.stopping && !u.control.ready) then Cleanup(u) else u
  }

  predicate IsTask(e: Event) {
    e.AnnounceStep? || e.AnnounceSayFails? || e.AnnounceTimer? || e.StopStep? || e.StopCancel?
  }

  predicate IsRoomEvent(e: Event) {
    e.RoomChanged? || e.ParticipantLeft? || e.RoomDisconnected? || e.TrackPublished? || e.TrackSubscribed?
    || e.TrackFailed? || e.TrackUnsubscribed?
  }

  function TaskNext(w: World, e: Event): C.ControlState
    requires IsTask(e) && Enabled(w, e)
  {
    match e
    case AnnounceStep(i, raised) => C.ResumeAnnouncement(w.control, i, w.now, raised)
    case AnnounceSayFails(i) => C.FailedSay(w.control, i)
    case AnnounceTimer(i) => C.FireTimer(w.control, i)
    case StopStep => C.ResumeStop(w.control, w.now)
    case StopCancel => C.CancelStop(w.control)
  }

  function Next(w: World, e: Event): World
    requires Enabled(w, e)
  {
    match e
    case Tick => w.(now := w.now + 1)
    case Data(packet, lost) => OnData(w, packet, lost)
    case RoomChanged(room) => OnRoom(w, room, A.Changed(w.adm, room))
    case ParticipantLeft(room, sid) => OnRoom(w, room, A.Disconnected(w.adm, room, sid))
    case RoomDisconnected(room) => OnRoom(w, room, A.Handled(w.adm, true))
    case TrackPublished(room, pub, who, failing) => OnRoom(w, room, A.TrackPublished(w.adm, room, pub, who, failing))
    case TrackSubscribed(room, pub, who) => OnRoom(w, room, A.TrackSubscribed(w.adm, pub, who))
    case TrackFailed(sid, trackSid) => OnRoom(w, w.room, A.SubscriptionFailed(w.adm, sid, trackSid))
    case TrackUnsubscribed(room, pub, who) => OnRoom(w, room, A.TrackUnsubscribed(w.adm, pub, who))
    case SessionClosed => Abort(w)
    case PublisherFailed => Abort(w)
    case StartupStep(_, _, _, _, _) => StartupNext(w, e)
    case StartupRaises => w.(startup := Raised)
    case EntryResumes => EntryNext(w)
    case JobShutdown => Cleanup(w)
    case CloseControl => w.(control := C.CancelAnnouncement(w.control), closing := Some(w.now + 2000))
    case _ => w.(control := TaskNext(w, e))
  }

  function Begin(now: int, room: A.Room, attribute: string): World {
    World(now, room, A.Fresh(attribute),
          C.ControlState(None, "", "", false, false, 0, false, [], [], None, None, C.NoStop, false, 0, 0, 0),
          Connecting, false, false, false, false, None,
          Log([], 0, false, false, 0, None))
  }

  // ----- the invariant -----

  ghost predicate CoreInv(w: World) {
    && C.Inv(w.control) && C.GateInv(w.control, Muted(w)) && A.Inv(w.adm) && A.RoomOk(w.room)
    && (w.cleaned <==> w.adm.closed)
    && (w.control.ready ==> w.control.session.Some? && !w.cleaned && !Pending(w.startup))
    && (w.control.current.Some? ==> w.control.ready || w.cleaned)
    && (Pending(w.startup) && Muted(w) ==> w.startupCancel)
    && (w.closing.Some? ==> w.cleaned)
    && C.Dedup(w.control.seen, w.log.accepted)
  }

  /** What an abort restores: a ready job has its leg, and a takeover before readiness has aborted. */
  ghost predicate SafeInv(w: World) {
    && (w.control.ready && !w.aborted ==> A.Valid(w.adm, w.room))
    && (w.control.stopping && !w.control.ready && !w.cleaned ==> w.aborted)
  }

  /** What the position of the startup coroutine says. */
  ghost predicate StartupInv(w: World) {
    && (w.startup.Connecting? || w.startup.Waiting? || w.startup.Authorizing? ==>
          w.control.session.None? && !w.adm.authorized)
    && (w.startup.Starting? ==> w.control.session.Some? && !w.adm.authorized && w.adm.leg.Some?)
    && (w.startup.Subscribing? || w.startup.Publishing? ==> w.control.session.Some? && w.adm.authorized)
    && (w.startup.Publishing? ==> w.adm.connected && w.log.readiness == 1)
    && (w.startup.Connecting? || w.startup.Waiting? ==> w.adm.leg.None?)
    && (w.startup.Starting? || w.startup.Subscribing? ==> w.log.profileAuthorized)
    && (w.startup.Subscribing? ==> w.log.sessionStarted)
    && w.log.readiness <= 1
    && (Pending(w.startup) && !w.startup.Publishing? ==> w.log.readiness == 0)
    && (w.log.readiness == 1 ==>
          w.log.profileAuthorized && w.log.sessionStarted && w.adm.authorized && w.adm.connected)
    && (w.control.ready ==> w.log.readiness == 1)
  }

  function Greetings(w: World): nat {
    match w.control.session case None => 0 case Some(s) => multiset(s.said)[C.Greeting]
  }

  ghost predicate GreetingInv(w: World) {
    && Greetings(w) <= 1
    && (Pending(w.startup) ==> Greetings(w) == 0)
    && (Greetings(w) == 1 ==> w.log.readiness == 1)
  }

  /** A suspended wait with its event clear has nothing to do. */
  ghost predicate WakeupInv(w: World) {
    !Muted(w) && !w.adm.changed ==>
      && (w.startup.Waiting? ==> !A.WaitWouldAct(w.adm, w.room))
      && (w.startup.Subscribing? ==> !A.AudioWouldAct(w.adm, w.room))
  }

  ghost predicate Inv(w: World) {
    CoreInv(w) && SafeInv(w) && StartupInv(w) && GreetingInv(w) && WakeupInv(w)
  }
}
