/**
 * The entrypoint of src/aida_agent/worker.py, updating its variables, the handler, the admission
 * and the session in place.  Each method is one stretch of code between two awaits; Step runs
 * whichever of them an event selects, and is proved to take exactly the step of module Worker.
 */
module Jobs {
  import opened Wrappers
  import C = Control
  import A = Admission
  import W = Worker
  import Handler
  import SipAdmissions

  class Job {
    const control: Handler.ControlHandler
    const admission: SipAdmissions.SipAdmission
    var session: Handler.Session?
    var now: int        // the clock
    var room: A.Room    // ctx.room's participants, which the SDK updates
    var startup: W.Startup
    var startupCancel: bool
    var entryDone: bool
    var aborted: bool
    var cleaned: bool
    var closing: Option<int>
    ghost var log: W.Log

    /** The handler writes the session that this job silences. */
    ghost predicate Valid()
      reads this, control
    {
      control.session == session
    }

    ghost function State(): W.World
      reads this, control, control.session, admission
    {
      W.World(now, room, admission.State(), control.State(), startup, startupCancel, entryDone,
              aborted, cleaned, closing, log)
    }

    constructor (now: int, room: A.Room, attribute: string)
      ensures Valid() && State() == W.Begin(now, room, attribute)
    {
      control := new Handler.ControlHandler();
      admission := new SipAdmissions.SipAdmission(attribute);
      session := null;
      this.now, this.room := now, room;
      startup, startupCancel, entryDone := W.Connecting, false, false;
      aborted, cleaned, closing := false, false, None;
      log := W.Log([], 0, false, false, 0, None);
    }

    method Silence()
      requires Valid()
      modifies session
      ensures Valid() && control.State() == C.Silence(old(control.State()))
    {
      if session != null {
        session.input := false;
        session.output := false;
      }
    }

    method Abort()
      requires Valid()
      modifies this, session
      ensures Valid() && session == old(session) && State() == W.Abort(old(State()))
    {
      if aborted || cleaned {
        return;
      }
      aborted := true;
      Silence();
      if W.Pending(startup) {
        startupCancel := true;
      }
      log := log.(aborts := log.aborts + 1);
    }

    /** data_received */
    method OnData(packet: Option<C.Command>, lost: nat)
      requires Valid()
      modifies this, control, session
      ensures Valid() && session == old(session) && State() == W.OnData(old(State()), packet, lost)
    {
      if !aborted && !cleaned {
        log := W.Record(State(), packet);
        var accepted := control.Receive(packet, now, lost);
        if control.stopping && !control.ready {
          Abort();
        }
      }
    }

    /** cleanup up to its first await. */
    method Cleanup()
      requires Valid()
      modifies this, control, admission, session
      ensures Valid() && session == old(session) && State() == W.Cleanup(old(State()))
    {
      if cleaned {
        return;
      }
      cleaned := true;
      control.ready := false;
      admission.Close();
      Silence();
      if W.Pending(startup) {
        startupCancel := true;
      }
    }

    /** participant_connected, participant_attributes_changed: the SDK updates the room, then calls the handler. */
    method OnParticipants(room: A.Room)
      requires Valid()
      modifies this, admission, session
      ensures Valid() && session == old(session)
      ensures State() == W.OnRoom(old(State()), room, A.Changed(old(State()).adm, room))
    {
      this.room := room;
      if !cleaned {
        var abort := admission.Changed(room);
        if abort {
          Abort();
        }
      }
    }

    /** participant_disconnected */
    method OnDisconnected(room: A.Room, sid: string)
      requires Valid()
      modifies this, admission, session
      ensures Valid() && session == old(session)
      ensures State() == W.OnRoom(old(State()), room, A.Disconnected(old(State()).adm, room, sid))
    {
      this.room := room;
      if !cleaned {
        var abort := admission.Disconnected(room, sid);
        if abort {
          Abort();
        }
      }
    }

    /** disconnected */
    method OnRoomDisconnected(room: A.Room)
      requires Valid()
      modifies this, admission, session
      ensures Valid() && session == old(session)
      ensures State() == W.OnRoom(old(State()), room, A.Handled(old(State()).adm, true))
    {
      this.room := room;
      if !cleaned {
        Abort();
      }
    }

    /** track_published */
    method OnTrackPublished(room: A.Room, pub: A.Publication, who: A.Participant, failing: set<string>)
      requires Valid()
      modifies this, admission, session
      ensures Valid() && session == old(session)
      ensures State() == W.OnRoom(old(State()), room, A.TrackPublished(old(State()).adm, room, pub, who, failing))
    {
      this.room := room;
      if !cleaned {
        var abort := admission.TrackPublished(room, pub, who, failing);
        if abort {
          Abort();
        }
      }
    }

    /** track_subscribed */
    method OnTrackSubscribed(room: A.Room, pub: A.Publication, who: A.Participant)
      requires Valid()
      modifies this, admission, session
      ensures Valid() && session == old(session)
      ensures State() == W.OnRoom(old(State()), room, A.TrackSubscribed(old(State()).adm, pub, who))
    {
      this.room := room;
      if !cleaned {
        admission.TrackSubscribed(pub, who);
      }
    }

    /** track_subscription_failed */
    method OnTrackFailed(sid: string, trackSid: string)
      requires Valid()
      modifies this, admission, session
      ensures Valid() && session == old(session)
      ensures State()
                == W.OnRoom(old(State()), old(State()).room, A.SubscriptionFailed(old(State()).adm, sid, trackSid))
    {
      if !cleaned {
        var abort := admission.SubscriptionFailed(sid, trackSid);
        if abort {
          Abort();
        }
      }
    }

    /** track_unsubscribed */
    method OnTrackUnsubscribed(room: A.Room, pub: A.Publication, who: A.Participant)
      requires Valid()
      modifies this, admission, session
      ensures Valid() && session == old(session)
      ensures State() == W.OnRoom(old(State()), room, A.TrackUnsubscribed(old(State()).adm, pub, who))
    {
      this.room := room;
      if !cleaned {
        var abort := admission.TrackUnsubscribed(pub, who);
        if abort {
          Abort();
        }
      }
    }

    /** The handler registered for a room event. */
    method OnRoomEvent(e: W.Event)
      requires Valid() && W.IsRoomEvent(e) && W.Enabled(State(), e)
      modifies this, admission, session
      ensures Valid() && session == old(session) && State() == W.Next(old(State()), e)
    {
      match e {
        case RoomChanged(next) => OnParticipants(next);
        case ParticipantLeft(next, sid) => OnDisconnected(next, sid);
        case RoomDisconnected(next) => OnRoomDisconnected(next);
        case TrackPublished(next, pub, who, failing) => OnTrackPublished(next, pub, who, failing);
        case TrackSubscribed(next, pub, who) => OnTrackSubscribed(next, pub, who);
        case TrackFailed(sid, trackSid) => OnTrackFailed(sid, trackSid);
        case TrackUnsubscribed(next, pub, who) => OnTrackUnsubscribed(next, pub, who);
      }
    }

    /** start_authorized from connect, or from a wakeup, to the next await. */
    method AfterWait()
      requires Valid()
      modifies this, admission
      ensures Valid() && session == old(session) && State() == W.AfterWait(old(State()))
    {
      var outcome := admission.Wait(room);
      match outcome {
        case Ambiguous => startup := W.Raised;
        case Bound => startup := W.Authorizing;
        case Suspended => startup := W.Waiting;
      }
    }

    /** A new session with both gates off, and the handler's references. */
    method AttachSession(transferStatement: string, failedStatement: string)
      requires Valid()
      modifies this, control
      ensures Valid() && fresh(session) && admission.State() == old(admission.State())
      ensures State() == old(State()).(control := old(State()).control.(
                           session := Some(C.SessionState(false, false, [])),
                           transferStatement := transferStatement, failedStatement := failedStatement))
    {
      session := new Handler.Session();
      control.session := session;
      control.transferStatement := transferStatement;
      control.failedStatement := failedStatement;
    }

    /** start_authorized from the authorized profile to session.start. */
    method CreateSession(transferStatement: string, failedStatement: string)
      requires Valid()
      modifies this, control
      ensures Valid() && (session == old(session) || fresh(session))
      ensures State() == W.CreateSession(old(State()), transferStatement, failedStatement)
    {
      var valid := admission.Validate(room);
      if !valid {
        startup := W.Raised;
      } else if aborted || control.stopping {
        startup := W.Returned;
      } else {
        AttachSession(transferStatement, failedStatement);
        startup := W.Starting;
        log := log.(profileAuthorized := true);
      }
    }

    /** start_authorized from the end of subscribe_audio's loop to the next await. */
    method AfterSubscription(outcome: A.AudioOutcome, localKnown: bool)
      requires Valid()
      modifies this
      ensures Valid() && session == old(session)
      ensures State() == W.AfterSubscription(old(State()), outcome, localKnown)
    {
      match outcome {
        case Unavailable => startup := W.Raised;
        case Pending => startup := W.Subscribing;
        case Connected =>
          var valid := admission.Validate(room);
          if !valid {
            startup := W.Raised;
          } else if aborted || control.stopping {
            startup := W.Returned;
          } else if !localKnown {
            startup := W.Raised;
          } else {
            startup := W.Publishing;
            log := log.(readiness := log.readiness + 1);
          }
      }
    }

    /** start_authorized from session.start to the next await. */
    method FirstSubscription(failing: set<string>, localKnown: bool)
      requires Valid()
      modifies this, admission, session
      ensures Valid() && session == old(session)
      ensures
        var w := old(State());
        State() == W.AfterAudio(w.(log := w.log.(sessionStarted := true)),
                                A.SubscribeAudio(w.adm, w.room, failing), localKnown)
    {
      log := log.(sessionStarted := true);
      ghost var w := State();
      var abort, outcome := admission.SubscribeAudio(room, failing);
      assert State() == w.(adm := admission.State());
      if abort {
        Abort();
      }
      assert State() == W.AbortIf(w.(adm := A.SubscribeAudio(w.adm, w.room, failing).state), abort);
      AfterSubscription(outcome, localKnown);
    }

    /** start_authorized from a wakeup of subscribe_audio to the next await. */
    method NextSubscription(failing: set<string>, localKnown: bool)
      requires Valid()
      modifies this, admission, session
      ensures Valid() && session == old(session)
      ensures
        var w := old(State());
        State() == W.AfterAudio(w, A.SubscribeTurn(w.adm, w.room, failing), localKnown)
    {
      ghost var w := State();
      var abort, outcome := admission.SubscribeTurn(room, failing);
      assert State() == w.(adm := admission.State());
      if abort {
        Abort();
      }
      assert State() == W.AbortIf(w.(adm := A.SubscribeTurn(w.adm, w.room, failing).state), abort);
      AfterSubscription(outcome, localKnown);
    }

    /** start_authorized from the readiness publication to its end. */
    method Enable(greetingFails: bool)
      requires Valid()
      modifies this, control, session
      ensures Valid() && session == old(session) && State() == W.Enable(old(State()), greetingFails)
    {
      var valid := admission.Validate(room);
      if !valid {
        startup := W.Raised;
        return;
      }
      if aborted || control.stopping {
        startup := W.Returned;
        return;
      }
      var enable := control.Activate(now);
      if !enable {
        startup := W.Returned;
        return;
      }
      if session != null {
        session.output := true;
        session.input := true;
        session.said := session.said + [C.Greeting];
      }
      startup := if greetingFails then W.Raised else W.Returned;
    }

    method StartupStep(e: W.Event)
      requires Valid() && e.StartupStep? && W.Enabled(State(), e)
      modifies this, control, admission, session
      ensures Valid() && (session == old(session) || fresh(session)) && State() == W.Next(old(State()), e)
    {
      match startup {
        case Connecting => AfterWait();
        case Waiting => AfterWait();
        case Authorizing => CreateSession(e.transferStatement, e.failedStatement);
        case Starting => FirstSubscription(e.failing, e.localKnown);
        case Subscribing => NextSubscription(e.failing, e.localKnown);
        case Publishing => Enable(e.greetingFails);
      }
    }

    /** entrypoint after its await of startup. */
    method EntryResumes()
      requires Valid()
      modifies this, control, admission, session
      ensures Valid() && session == old(session) && State() == W.EntryNext(old(State()))
    {
      if startup.Raised? || startupCancel {
        Abort();
      }
      entryDone := true;
      if aborted || (control.stopping && !control.ready) {
        Cleanup();
      }
    }

    /** One resumption of an announcement or stop task, or a timer of theirs. */
    method TaskStep(e: W.Event)
      requires Valid() && W.IsTask(e) && W.Enabled(State(), e)
      modifies control, session
      ensures Valid() && session == old(session) && State() == W.Next(old(State()), e)
    {
      if e.StopStep? || e.StopCancel? {
        StopStep(e);
      } else {
        AnnouncementStep(e);
      }
    }

    /** _finish_handoff or _stop resumes, or is cancelled. */
    method StopStep(e: W.Event)
      requires Valid() && (e.StopStep? || e.StopCancel?) && W.Enabled(State(), e)
      modifies control, session
      ensures Valid() && session == old(session) && State() == W.Next(old(State()), e)
    {
      if e.StopStep? {
        control.ResumeStop(now);
      } else {
        control.CancelStop();
      }
    }

    /** _announce resumes in some task, or its timer fires. */
    method AnnouncementStep(e: W.Event)
      requires Valid() && (e.AnnounceStep? || e.AnnounceSayFails? || e.AnnounceTimer?) && W.Enabled(State(), e)
      modifies control, session
      ensures Valid() && session == old(session) && State() == W.Next(old(State()), e)
    {
      match e {
        case AnnounceStep(i, raised) => control.ResumeAnnouncement(i, now, raised);
        case AnnounceSayFails(i) => control.FailedSay(i);
        case AnnounceTimer(i) => control.FireTimer(i);
      }
    }

    /** The clock, the callbacks without a room event, and the end of startup. */
    method OtherStep(e: W.Event)
      requires Valid() && W.Enabled(State(), e) && !e.StartupStep? && !W.IsTask(e) && !W.IsRoomEvent(e)
      modifies this, control, admission, session
      ensures Valid() && session == old(session) && State() == W.Next(old(State()), e)
    {
      match e {
        case Tick => now := now + 1;
        case Data(packet, lost) => OnData(packet, lost);
        case SessionClosed => Abort();
        case PublisherFailed => Abort();
        case StartupRaises => startup := W.Raised;
        case EntryResumes => EntryResumes();
        case JobShutdown => Cleanup();
        case CloseControl =>
          control.CancelAnnouncement();
          closing := Some(now + 2000);
      }
    }

    /** A coroutine resumes, or a timer of one fires. */
    method Resume(e: W.Event)
      requires Valid() && W.Enabled(State(), e) && (e.StartupStep? || W.IsTask(e))
      modifies this, control, admission, session
      ensures Valid() && (session == old(session) || fresh(session)) && State() == W.Next(old(State()), e)
    {
      if e.StartupStep? {
        StartupStep(e);
      } else {
        TaskStep(e);
      }
    }

    /** A callback runs, or the clock moves. */
    method React(e: W.Event)
      requires Valid() && W.Enabled(State(), e) && !e.StartupStep? && !W.IsTask(e)
      modifies this, control, admission, session
      ensures Valid() && session == old(session) && State() == W.Next(old(State()), e)
    {
      if W.IsRoomEvent(e) {
        OnRoomEvent(e);
      } else {
        OtherStep(e);
      }
    }

    /** Whatever happens next: the job takes the step of the model. */
    method Step(e: W.Event)
      requires Valid() && W.Enabled(State(), e)
      modifies this, control, admission, session
      ensures Valid() && (session == old(session) || fresh(session)) && State() == W.Next(old(State()), e)
    {
      if e.StartupStep? || W.IsTask(e) {
        Resume(e);
      } else {
        React(e);
      }
    }
  }
}
