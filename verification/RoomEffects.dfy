/**
 * What each room event and each step of the startup does to a job, written out on the room and
 * the job's own variables.
 */
module RoomEffects {
  import opened Wrappers
  import opened Worker
  import opened WorkerInvariant
  import opened WorkerRuns
  import C = Control
  import A = Admission

  /** The one SIP participant of the room is this job's leg. */
  ghost predicate LegAlone(w: World, room: A.Room) {
    w.adm.leg.Some? && A.OnlyLeg(room, w.adm.leg.value, w.adm.attribute)
  }

  /** A microphone publication of this job's leg. */
  predicate LegMicrophone(w: World, pub: A.Publication, who: A.Participant) {
    && w.adm.leg.Some? && who.identity == w.adm.leg.value.identity && who.sid == w.adm.leg.value.sid
    && pub.audio && pub.microphone
  }

  /** What ends the call of a job that has a leg. */
  ghost predicate EndsCall(w: World, e: Event) {
    match e
    case RoomChanged(room) => w.adm.leg.Some? && !LegAlone(w, room)
    case ParticipantLeft(room, sid) => w.adm.leg.Some? && (sid == w.adm.leg.value.sid || !LegAlone(w, room))
    case RoomDisconnected(_) => true
    case TrackPublished(room, pub, who, failing) =>
      w.adm.authorized
      && (!LegAlone(w, room)
          || (LegMicrophone(w, pub, who) && pub.sid !in w.adm.subscribed && pub.sid in failing))
    case TrackFailed(sid, track) => w.adm.leg.Some? && sid == w.adm.leg.value.sid && track in w.adm.subscribed
    case TrackUnsubscribed(_, pub, who) => w.adm.connected && LegMicrophone(w, pub, who)
    case _ => false
  }

  lemma HandlerAborts(w: World, room: A.Room, h: A.Handled)
    requires !Muted(w)
    ensures
      var v := OnRoom(w, room, h);
      && v.aborted == h.abort && !v.cleaned && v.room == room && v.adm == h.state
      && (h.abort ==> !InputOn(v) && !OutputOn(v) && (Pending(w.startup) ==> v.startupCancel))
      && (!h.abort ==> v.control == w.control && v.startup == w.startup && v.startupCancel == w.startupCancel)
  {
  }

  /** What the event leaves of a job that was neither aborted nor cleaned. */
  ghost predicate Ends(w: World, v: World, ends: bool) {
    && v.aborted == ends && !v.cleaned
    && (ends ==> !InputOn(v) && !OutputOn(v) && (Pending(w.startup) ==> v.startupCancel))
    && (!ends ==> v.control == w.control && v.startup == w.startup && v.startupCancel == w.startupCancel)
  }

  lemma ParticipantEventEnds(w: World, e: Event)
    requires Inv(w) && Enabled(w, e) && !Muted(w) && (e.RoomChanged? || e.ParticipantLeft? || e.RoomDisconnected?)
    ensures Ends(w, Next(w, e), EndsCall(w, e))
  {
    A.ValidExactly(w.adm.(changed := true), e.room);
    A.ValidExactly(w.adm, e.room);
    match e
    case RoomChanged(room) => HandlerAborts(w, room, A.Changed(w.adm, room));
    case ParticipantLeft(room, sid) => HandlerAborts(w, room, A.Disconnected(w.adm, room, sid));
    case RoomDisconnected(room) => HandlerAborts(w, room, A.Handled(w.adm, true));
  }

  lemma TrackEventEnds(w: World, e: Event)
    requires Inv(w) && Enabled(w, e) && !Muted(w)
    requires e.TrackPublished? || e.TrackSubscribed? || e.TrackFailed? || e.TrackUnsubscribed?
    ensures Ends(w, Next(w, e), EndsCall(w, e))
  {
    match e
    case TrackPublished(room, pub, who, failing) =>
      A.ValidExactly(w.adm, room);
      HandlerAborts(w, room, A.TrackPublished(w.adm, room, pub, who, failing));
    case TrackSubscribed(room, pub, who) => HandlerAborts(w, room, A.TrackSubscribed(w.adm, pub, who));
    case TrackFailed(sid, track) => HandlerAborts(w, w.room, A.SubscriptionFailed(w.adm, sid, track));
    case TrackUnsubscribed(room, pub, who) => HandlerAborts(w, room, A.TrackUnsubscribed(w.adm, pub, who));
  }

  /**
   * A room event ends the call exactly when the bound leg has gone or is no longer the only SIP
   * participant, its subscription failed or its connected microphone is lost, or the room is
   * disconnected; whoever else is in the room.  Otherwise the job goes on as it was.
   */
  lemma RoomEventAborts(ws: seq<World>, es: seq<Event>, i: nat)
    requires IsRun(ws, es) && i < |es| && IsRoomEvent(es[i]) && !Muted(ws[i])
    ensures Ends(ws[i], ws[i + 1], EndsCall(ws[i], es[i]))
  {
    RunKeeps(ws, es, i);
    assert StepAt(ws, es, i);
    if es[i].RoomChanged? || es[i].ParticipantLeft? || es[i].RoomDisconnected? {
      ParticipantEventEnds(ws[i], es[i]);
    } else {
      TrackEventEnds(ws[i], es[i]);
    }
  }

  /** A published microphone of the authorized leg is subscribed, once, and nothing else is. */
  lemma PublishedSubscribes(ws: seq<World>, es: seq<Event>, i: nat)
    requires IsRun(ws, es) && i < |es| && es[i].TrackPublished?
    ensures
      var w, e := ws[i], es[i];
      ws[i + 1].adm.subscribed
      == if !w.cleaned && w.adm.authorized && LegAlone(w, e.room) && LegMicrophone(w, e.pub, e.who)
            && e.pub.sid !in w.adm.subscribed
         then w.adm.subscribed + [e.pub.sid] else w.adm.subscribed
  {
    RunKeeps(ws, es, i);
    assert StepAt(ws, es, i);
    A.ValidExactly(ws[i].adm, es[i].room);
  }

  // ----- startup -----

  ghost predicate TwoSips(room: A.Room) {
    exists m, n :: 0 <= m < n < |room| && room[m].sip && room[n].sip
  }

  lemma {:induction false} ManySips(room: A.Room)
    ensures |A.Sips(room)| > 1 <==> TwoSips(room)
  {
    if |A.Sips(room)| == 1 {
      var k := A.SipsOne(room);
    } else if A.Sips(room) == [] {
      A.NoSips(room);
    } else {
      TwoFound(room);
    }
  }

  lemma {:induction false} TwoFound(room: A.Room)
    requires |A.Sips(room)| > 1
    ensures TwoSips(room)
  {
    var rest := room[1..];
    if room[0].sip {
      assert A.Sips(rest) != [];
      A.NoSips(rest);
      var n: nat :| n < |rest| && rest[n].sip;
      assert room[n + 1] == rest[n];
      TwoAt(room, 0, n + 1);
    } else {
      TwoFound(rest);
      TwoLater(room, rest);
    }
  }

  lemma TwoLater(room: A.Room, rest: A.Room)
    requires room != [] && rest == room[1..] && TwoSips(rest)
    ensures TwoSips(room)
  {
    var m, n :| 0 <= m < n < |rest| && rest[m].sip && rest[n].sip;
    TwoAt(room, m + 1, n + 1);
  }

  lemma TwoAt(room: A.Room, m: nat, n: nat)
    requires m < n < |room| && room[m].sip && room[n].sip
    ensures TwoSips(room)
  {
  }

  /** The room's one SIP participant carries a route token: it is the leg. */
  ghost predicate Bindable(w: World, leg: A.SipLeg) { A.OnlyLeg(w.room, leg, w.adm.attribute) }

  /**
   * Waiting for the leg: two SIP participants end the startup, one with a token is bound with
   * its identity, sid and token, and otherwise the wait goes on.
   */
  lemma WaitBinds(w: World, e: Event)
    requires Inv(w) && Enabled(w, e) && e.StartupStep? && (w.startup.Connecting? || w.startup.Waiting?)
    ensures
      var v := Next(w, e);
      && (v.startup.Raised? <==> TwoSips(w.room))
      && (v.startup.Authorizing? <==> v.adm.leg.Some?)
      && (forall leg :: v.adm.leg == Some(leg) <==> Bindable(w, leg))
      && (v.startup.Raised? || v.startup.Authorizing? || v.startup.Waiting?)
  {
    ManySips(w.room);
    forall leg ensures Next(w, e).adm.leg == Some(leg) <==> Bindable(w, leg) {
      BindsLeg(w, leg);
    }
  }

  lemma BindsLeg(w: World, leg: A.SipLeg)
    requires w.adm.leg.None?
    ensures AfterWait(w).adm.leg == Some(leg) <==> Bindable(w, leg)
  {
    if |A.Sips(w.room)| == 1 {
      var k := A.SipsOne(w.room);
    }
    if Bindable(w, leg) {
      var k :| 0 <= k < |w.room| && A.OnlySip(w.room, k) && w.room[k].identity == leg.identity
               && w.room[k].sid == leg.sid && w.adm.attribute in w.room[k].attributes
               && w.room[k].attributes[w.adm.attribute] == leg.token;
      A.OneSip(w.room, k);
    }
  }

  /** Authorized: a session is made, both gates off, exactly when the leg is still alone. */
  lemma AuthorizedCreates(w: World, e: Event)
    requires Inv(w) && Enabled(w, e) && e.StartupStep? && w.startup.Authorizing?
    ensures
      var v := Next(w, e);
      && v.startup == (if LegAlone(w, w.room) then Starting else Raised)
      && (v.startup.Starting? ==>
            && v.control.session == Some(C.SessionState(false, false, []))
            && v.control.transferStatement == e.transferStatement && v.control.failedStatement == e.failedStatement)
  {
    A.ValidExactly(w.adm, w.room);
    if w.control.stopping { NoStartupAfterTakeover(w); }
  }

  /** Some microphone of the leg is in the room with its track. */
  ghost predicate LegHeard(w: World) {
    exists p, q :: p in w.room && q in p.tracks && LegMicrophone(w, q, p) && q.track
  }

  /**
   * Subscribing: the startup fails when the leg is not alone; it goes on waiting while the leg
   * has no microphone with a track; and where it has one, and nothing aborted the job, readiness
   * is published, if this worker's own identity is known.
   */
  lemma SubscribingPublishes(w: World, e: Event)
    requires Inv(w) && Enabled(w, e) && e.StartupStep? && (w.startup.Starting? || w.startup.Subscribing?)
    ensures
      var v := Next(w, e);
      && (!LegAlone(w, w.room) ==> v.startup.Raised?)
      && (LegAlone(w, w.room) && !LegHeard(w) ==> v.startup.Subscribing?)
      && (LegAlone(w, w.room) && LegHeard(w) && !v.aborted ==>
            v.startup == (if e.localKnown then Publishing else Raised))
      && v.log.readiness == (if v.startup.Publishing? then 1 else 0)
  {
    A.ValidExactly(w.adm, w.room);
    A.ValidExactly(w.adm.(authorized := true), w.room);
    if w.control.stopping { NoStartupAfterTakeover(w); }
    if w.startup.Starting? {
      StartsSubscribing(w, e);
    } else {
      GoesOnSubscribing(w, e);
    }
  }

  /** What the end of a turn of subscribe_audio means for the startup. */
  lemma AfterTurn(w: World, s: A.Subscription, localKnown: bool)
    requires !Muted(w) && !w.control.stopping
    requires s.outcome.Connected? ==> A.Valid(s.state, w.room)
    ensures
      var v := AfterAudio(w, s, localKnown);
      && (s.outcome.Unavailable? ==> v.startup.Raised?)
      && (s.outcome.Pending? ==> v.startup.Subscribing?)
      && (s.outcome.Connected? && !v.aborted ==> v.startup == (if localKnown then Publishing else Raised))
      && (s.outcome.Connected? ==> v.startup.Publishing? || v.startup.Raised? || v.startup.Returned?)
      && v.log.readiness == w.log.readiness + (if v.startup.Publishing? then 1 else 0)
  {
    AbortApart(w.(adm := s.state));
  }

  lemma StartsSubscribing(w: World, e: Event)
    requires Inv(w) && Enabled(w, e) && e.StartupStep? && w.startup.Starting? && !Muted(w) && !w.control.stopping
    requires A.Valid(w.adm, w.room) <==> LegAlone(w, w.room)
    requires A.Valid(w.adm.(authorized := true), w.room) <==> LegAlone(w, w.room)
    ensures
      var v := Next(w, e);
      && (!LegAlone(w, w.room) ==> v.startup.Raised?)
      && (LegAlone(w, w.room) && !LegHeard(w) ==> v.startup.Subscribing?)
      && (LegAlone(w, w.room) && LegHeard(w) && !v.aborted ==>
            v.startup == (if e.localKnown then Publishing else Raised))
      && v.log.readiness == (if v.startup.Publishing? then 1 else 0)
  {
    var u := w.(log := w.log.(sessionStarted := true));
    var a := w.adm.(authorized := true);
    if LegAlone(w, w.room) {
      A.SubscribeTurnKeeps(a, w.room, e.failing);
      TurnFinds(w, a, e.failing);
    }
    AfterTurn(u, A.SubscribeAudio(w.adm, w.room, e.failing), e.localKnown);
  }

  lemma GoesOnSubscribing(w: World, e: Event)
    requires Inv(w) && Enabled(w, e) && e.StartupStep? && w.startup.Subscribing? && !Muted(w) && !w.control.stopping
    requires A.Valid(w.adm, w.room) <==> LegAlone(w, w.room)
    ensures
      var v := Next(w, e);
      && (!LegAlone(w, w.room) ==> v.startup.Raised?)
      && (LegAlone(w, w.room) && !LegHeard(w) ==> v.startup.Subscribing?)
      && (LegAlone(w, w.room) && LegHeard(w) && !v.aborted ==>
            v.startup == (if e.localKnown then Publishing else Raised))
      && v.log.readiness == (if v.startup.Publishing? then 1 else 0)
  {
    A.SubscribeTurnKeeps(w.adm, w.room, e.failing);
    if LegAlone(w, w.room) { TurnFinds(w, w.adm, e.failing); }
    AfterTurn(w, A.SubscribeTurn(w.adm, w.room, e.failing), e.localKnown);
  }

  /** A turn connects exactly when a microphone of the leg is in the room with its track. */
  lemma TurnFinds(w: World, a: A.AdmissionState, failing: set<string>)
    requires A.Inv(a) && a.authorized && A.RoomOk(w.room) && A.Valid(a, w.room) && a.leg == w.adm.leg
    ensures A.SubscribeTurn(a, w.room, failing).outcome == (if LegHeard(w) then A.Connected else A.Pending)
  {
    var s := A.SubscribeTurn(a, w.room, failing);
    A.SubscribeTurnKeeps(a, w.room, failing);
    LegIsThere(a, w.room);
    if s.outcome.Connected? {
      A.ConnectedHears(a, w.room, failing);
      var p, q :| p in w.room && q in p.tracks && A.BoundAudio(s.state, q, p.identity, p.sid) && q.track;
      assert LegMicrophone(w, q, p);
    } else {
      SettledUnheard(w, s.state);
    }
  }

  lemma SettledUnheard(w: World, a: A.AdmissionState)
    requires a.leg == w.adm.leg && A.AllSettled(a, w.room)
    ensures !LegHeard(w)
  {
    forall p, q | p in w.room && q in p.tracks ensures !(LegMicrophone(w, q, p) && q.track) {
      assert A.Settled(a, p, q);
    }
  }

  lemma LegIsThere(a: A.AdmissionState, room: A.Room)
    requires A.Valid(a, room)
    ensures A.Find(room, a.leg.value.identity).Some?
    ensures forall failing :: !A.SubscribeTurn(a, room, failing).outcome.Unavailable?
  {
    assert A.Sips(room)[0] in A.Sips(room);
    A.FindIs(room, a.leg.value.identity);
    FindsIdentity(room, a.leg.value.identity);
  }

  lemma {:induction false} FindsIdentity(room: A.Room, identity: string)
    ensures A.Find(room, identity).Some? <==> exists p :: p in room && p.identity == identity
  {
    if room != [] {
      FindsIdentity(room[1..], identity);
      assert room == [room[0]] + room[1..];
    }
  }

  /**
   * The last step: a job whose leg is still alone is ready.  With a transfer pending its
   * announcement starts, both gates off and no greeting; otherwise both gates are on and the
   * caller is greeted.
   */
  lemma PublishedEnables(w: World, e: Event)
    requires Inv(w) && Enabled(w, e) && e.StartupStep? && w.startup.Publishing?
    ensures
      var c, v := w.control, Next(w, e);
      if !LegAlone(w, w.room) then v.startup.Raised? && v.control == c
      else
        && v.control.ready
        && (if c.transferring then
              && v.startup.Returned? && !InputOn(v) && !OutputOn(v) && Greetings(v) == Greetings(w)
              && v.control.current == Some(|c.announcements|) && |v.control.announcements| == |c.announcements| + 1
              && v.control.announcements[|c.announcements|] == C.Announcement(C.Created, false, C.Unstarted)
              && v.control.deadlineMs == (if c.deadlineMs - w.now > 10000 then w.now + 10000 else c.deadlineMs)
            else
              && InputOn(v) && OutputOn(v) && v.control.session.value.said == c.session.value.said + [C.Greeting]
              && v.startup == (if e.greetingFails then Raised else Returned))
  {
    A.ValidExactly(w.adm, w.room);
    if w.control.stopping { NoStartupAfterTakeover(w); }
    StartSays(w.control.(ready := true), w.now);
  }

  lemma StartSays(c: C.ControlState, now: int)
    ensures c.session.Some? ==>
              && C.StartAnnouncement(c, now).session.Some?
              && C.StartAnnouncement(c, now).session.value.said == c.session.value.said
  {
    C.StartFrame(c, now);
  }

  // ----- abort, cleanup and the end of the entrypoint -----

  /** A closed session or a failed feed aborts a job, silences it, and cancels its startup. */
  lemma FailureAborts(w: World, e: Event)
    requires Inv(w) && Enabled(w, e) && (e.SessionClosed? || e.PublisherFailed?) && !Muted(w)
    ensures Ends(w, Next(w, e), true)
  {
  }

  /** Cleanup ends readiness, silences the session, closes the admission and cancels the startup. */
  lemma ShutdownCleans(w: World, e: Event)
    requires Inv(w) && Enabled(w, e) && e.JobShutdown?
    ensures
      var v := Next(w, e);
      && v.cleaned && v.adm.closed && !v.control.ready && !InputOn(v) && v.aborted == w.aborted
      && (!w.cleaned ==> !OutputOn(v) && (Pending(w.startup) ==> v.startupCancel))
      && (w.cleaned ==> v == w)
  {
  }

  /**
   * When the startup has ended, a job whose startup failed or was cancelled is aborted, unless it
   * was cleaned before; and it is cleaned when it is aborted or was taken over before readiness.
   */
  lemma EntryEnds(w: World, e: Event)
    requires Inv(w) && Enabled(w, e) && e.EntryResumes?
    ensures
      var v := Next(w, e);
      && v.entryDone
      && v.aborted == (w.aborted || (!w.cleaned && (w.startup.Raised? || w.startupCancel)))
      && v.cleaned == (w.cleaned || v.aborted || (w.control.stopping && !w.control.ready))
      && (v.cleaned && !w.cleaned ==> !InputOn(v) && !OutputOn(v) && !v.control.ready && v.adm.closed)
  {
  }
}
