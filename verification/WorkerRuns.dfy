/** What holds over whole runs of the composed job, whatever the interleaving. */
module WorkerRuns {
  import opened Wrappers
  import opened Worker
  import opened WorkerInvariant
  import C = Control
  import A = Admission

  ghost predicate IsStart(w: World) {
    exists room, attribute :: A.RoomOk(room) && w == Begin(w.now, room, attribute)
  }

  ghost predicate StepAt(ws: seq<World>, es: seq<Event>, i: nat)
    requires |ws| == |es| + 1 && i < |es|
  {
    Enabled(ws[i], es[i]) && ws[i + 1] == Next(ws[i], es[i])
  }

  /** ws are the states of a run from a fresh job, es the steps between them. */
  ghost predicate IsRun(ws: seq<World>, es: seq<Event>) {
    && |ws| == |es| + 1 && IsStart(ws[0])
    && (forall i: nat {:trigger StepAt(ws, es, i)} :: i < |es| ==> StepAt(ws, es, i))
  }

  lemma {:induction false} RunKeeps(ws: seq<World>, es: seq<Event>, i: nat)
    requires IsRun(ws, es) && i < |ws|
    ensures Inv(ws[i])
  {
    if i == 0 {
      var room, attribute :| A.RoomOk(room) && ws[0] == Begin(ws[0].now, room, attribute);
      BeginHolds(ws[0].now, room, attribute);
    } else {
      RunKeeps(ws, es, i - 1);
      assert StepAt(ws, es, i - 1);
      StepKeeps(ws[i - 1], es[i - 1]);
    }
  }

  predicate InputOn(w: World) { w.control.session.Some? && w.control.session.value.input }
  predicate OutputOn(w: World) { w.control.session.Some? && w.control.session.value.output }

  // ----- the audio gates -----

  /**
   * The caller is heard exactly while the job is ready with no transfer, takeover, abort or
   * cleanup, and then the room holds one SIP participant, the authorized leg.
   */
  lemma InputExactly(ws: seq<World>, es: seq<Event>, i: nat)
    requires IsRun(ws, es) && i < |ws|
    ensures InputOn(ws[i]) <==>
              ws[i].control.ready && !ws[i].control.transferring && !ws[i].control.stopping
              && !ws[i].aborted && !ws[i].cleaned
    ensures InputOn(ws[i]) ==>
              && ws[i].adm.leg.Some? && |A.Sips(ws[i].room)| == 1
              && A.Sips(ws[i].room)[0].identity == ws[i].adm.leg.value.identity
              && A.Sips(ws[i].room)[0].sid == ws[i].adm.leg.value.sid
              && A.Token(ws[i].adm, A.Sips(ws[i].room)[0]) == Some(ws[i].adm.leg.value.token)
              && A.OnlyLeg(ws[i].room, ws[i].adm.leg.value, ws[i].adm.attribute)
  {
    RunKeeps(ws, es, i);
    A.ValidExactly(ws[i].adm, ws[i].room);
  }

  /** Until abort or cleanup, output is on exactly while screening or while the outro plays. */
  lemma OutputExactly(ws: seq<World>, es: seq<Event>, i: nat)
    requires IsRun(ws, es) && i < |ws| && !Muted(ws[i])
    ensures OutputOn(ws[i]) <==> InputOn(ws[i]) || C.Playing(ws[i].control)
    ensures OutputOn(ws[i]) && ws[i].control.transferring ==> C.Playing(ws[i].control)
  {
    RunKeeps(ws, es, i);
  }

  lemma MutedStays(w: World, e: Event)
    requires Inv(w) && Enabled(w, e) && Muted(w)
    ensures Muted(Next(w, e))
  {
  }

  lemma MutedAt(ws: seq<World>, es: seq<Event>, i: nat)
    requires IsRun(ws, es) && i < |es| && Muted(ws[i])
    ensures Muted(ws[i + 1])
  {
    RunKeeps(ws, es, i);
    assert StepAt(ws, es, i);
    MutedStays(ws[i], es[i]);
  }

  lemma {:induction false} MutedRuns(ws: seq<World>, es: seq<Event>, i: nat, j: nat)
    requires IsRun(ws, es) && i <= j < |ws| && Muted(ws[i])
    ensures Muted(ws[j]) && !InputOn(ws[j])
    decreases j
  {
    if i < j {
      MutedRuns(ws, es, i, j - 1);
      MutedAt(ws, es, j - 1);
    }
    InputExactly(ws, es, j);
  }

  lemma OthersOpenNothing(w: World, e: Event)
    requires Inv(w) && Enabled(w, e) && Muted(w) && !OutputOn(w) && !IsTask(e)
    ensures !OutputOn(Next(w, e))
  {
  }

  lemma TaskOpens(w: World, e: Event)
    requires Inv(w) && Enabled(w, e) && !OutputOn(w) && IsTask(e)
    ensures OutputOn(w.(control := TaskNext(w, e))) <==>
              e.AnnounceStep? && !e.raised && w.control.current == Some(e.task)
              && w.control.announcements[e.task].pc.AwaitInterrupt?
              && !w.control.announcements[e.task].cancelled && w.control.transferStatement != ""
  {
    var c := w.control;
    match e
    case AnnounceStep(i, raised) => AnnounceOpens(c, i, w.now, raised);
    case AnnounceSayFails(i) => assert C.Live(c, i);
    case AnnounceTimer(i) =>
    case StopStep =>
    case StopCancel =>
  }

  lemma AnnounceOpens(c: C.ControlState, i: nat, now: int, raised: bool)
    requires C.Inv(c) && i < |c.announcements| && !c.announcements[i].pc.Finished?
    requires c.session.Some? ==> !c.session.value.output
    ensures
      var d := C.ResumeAnnouncement(c, i, now, raised);
      (d.session.Some? && d.session.value.output) <==>
        !raised && c.current == Some(i) && c.announcements[i].pc.AwaitInterrupt?
        && !c.announcements[i].cancelled && c.transferStatement != ""
  {
    if !c.announcements[i].cancelled { assert C.Live(c, i); }
  }

  /**
   * Abort and cleanup do not hold the output gate shut: an announcement that was awaiting the
   * interruption may open it again, and nothing else can.
   */
  lemma OutputAfterMute(w: World, e: Event)
    requires Inv(w) && Enabled(w, e) && Muted(w) && !OutputOn(w)
    ensures OutputOn(Next(w, e)) <==>
              e.AnnounceStep? && !e.raised && w.control.current == Some(e.task)
              && w.control.announcements[e.task].pc.AwaitInterrupt?
              && !w.control.announcements[e.task].cancelled && w.control.transferStatement != ""
  {
    if IsTask(e) { TaskOpens(w, e); } else { OthersOpenNothing(w, e); }
  }

  /** The current announcement, if nothing cancels it, will speak. */
  predicate MaySpeak(w: World) { WouldSpeak(w.control, w.now) }

  predicate WouldSpeak(c: C.ControlState, now: int) {
    && c.current.Some? && c.current.value < |c.announcements| && c.transferStatement != ""
    && var t := c.announcements[c.current.value];
       !t.cancelled && (t.pc.AwaitInterrupt? || (t.pc.Created? && c.deadlineMs > now))
  }

  lemma OwnStepQuiet(c: C.ControlState, i: nat, now: int, raised: bool)
    requires C.Inv(c) && i < |c.announcements| && !c.announcements[i].pc.Finished?
    requires !WouldSpeak(c, now) && c.current == Some(i)
    ensures !WouldSpeak(C.ResumeAnnouncement(c, i, now, raised), now)
  {
  }

  lemma OtherStepQuiet(c: C.ControlState, i: nat, now: int, raised: bool)
    requires C.Inv(c) && i < |c.announcements| && !c.announcements[i].pc.Finished?
    requires !WouldSpeak(c, now) && c.current != Some(i)
    ensures !WouldSpeak(C.ResumeAnnouncement(c, i, now, raised), now)
  {
    assert !C.Live(c, i);
  }

  /** Where no announcement would speak, none can fail to. */
  lemma NoFailedSay(c: C.ControlState, now: int)
    requires C.Inv(c) && !WouldSpeak(c, now)
    ensures forall i: nat :: !C.SayMayFail(c, i)
  {
    SayIsLive(c);
  }

  lemma TimerQuiet(c: C.ControlState, i: nat, now: int)
    requires i < |c.announcements| && !WouldSpeak(c, now)
    ensures !WouldSpeak(C.FireTimer(c, i), now)
  {
  }

  lemma StopQuiet(c: C.ControlState, now: int)
    requires C.StopMayResume(c, now) && !WouldSpeak(c, now)
    ensures !WouldSpeak(C.ResumeStop(c, now), now)
  {
  }

  lemma TaskStaysQuiet(w: World, e: Event)
    requires Inv(w) && Enabled(w, e) && IsTask(e) && !MaySpeak(w)
    ensures !WouldSpeak(TaskNext(w, e), w.now)
  {
    NoFailedSay(w.control, w.now);
    match e
    case AnnounceStep(i, raised) =>
      if w.control.current == Some(i) { OwnStepQuiet(w.control, i, w.now, raised); }
      else { OtherStepQuiet(w.control, i, w.now, raised); }
    case AnnounceTimer(i) => TimerQuiet(w.control, i, w.now);
    case StopStep => StopQuiet(w.control, w.now);
    case _ =>
  }

  lemma QuietStep(w: World, e: Event)
    requires Inv(w) && Enabled(w, e) && Muted(w) && !MaySpeak(w)
    ensures !MaySpeak(Next(w, e))
  {
    if IsTask(e) { TaskStaysQuiet(w, e); }
    else if IsRoomEvent(e) { RoomStaysQuiet(w, e); }
    else { OthersStayQuiet(w, e); }
  }

  lemma RoomStaysQuiet(w: World, e: Event)
    requires Enabled(w, e) && IsRoomEvent(e) && !MaySpeak(w)
    ensures !MaySpeak(Next(w, e))
  {
    RoomControl(w, e);
  }

  lemma OthersStayQuiet(w: World, e: Event)
    requires Inv(w) && Enabled(w, e) && Muted(w) && !MaySpeak(w) && !IsTask(e) && !IsRoomEvent(e)
    ensures !MaySpeak(Next(w, e))
  {
  }

  lemma QuietAt(ws: seq<World>, es: seq<Event>, i: nat)
    requires IsRun(ws, es) && i < |es| && Muted(ws[i]) && !OutputOn(ws[i]) && !MaySpeak(ws[i])
    ensures Muted(ws[i + 1]) && !OutputOn(ws[i + 1]) && !MaySpeak(ws[i + 1])
  {
    RunKeeps(ws, es, i);
    assert StepAt(ws, es, i);
    SilentStep(ws[i], es[i]);
  }

  lemma SilentStep(w: World, e: Event)
    requires Inv(w) && Enabled(w, e) && Muted(w) && !OutputOn(w) && !MaySpeak(w)
    ensures Muted(Next(w, e)) && !OutputOn(Next(w, e)) && !MaySpeak(Next(w, e))
  {
    OutputAfterMute(w, e);
    MutedStays(w, e);
    QuietStep(w, e);
  }

  /** A muted job in which no announcement will speak stays silent. */
  lemma {:induction false} QuietRuns(ws: seq<World>, es: seq<Event>, i: nat, j: nat)
    requires IsRun(ws, es) && i <= j < |ws| && Muted(ws[i]) && !OutputOn(ws[i]) && !MaySpeak(ws[i])
    ensures Muted(ws[j]) && !OutputOn(ws[j]) && !MaySpeak(ws[j])
    decreases j
  {
    if i < j {
      QuietRuns(ws, es, i, j - 1);
      QuietAt(ws, es, j - 1);
    }
  }

  /** A muted job in which an announcement will speak can go on until it does. */
  lemma SpeakingRun(ws: seq<World>, es: seq<Event>) returns (ws2: seq<World>, es2: seq<Event>)
    requires IsRun(ws, es) && Muted(ws[|es|]) && !OutputOn(ws[|es|]) && MaySpeak(ws[|es|])
    ensures Extends(ws, es, ws2, es2) && OutputOn(ws2[|es2|])
  {
    ws2, es2 := ws, es;
    RunKeeps(ws, es, |es|);
    var go := AnnounceStep(ws[|es|].control.current.value, false);
    if ws[|es|].control.announcements[go.task].pc.Created? {
      StartSpeaking(ws[|es|], go);
      Extend(ws2, es2, go);
      ws2, es2 := ws2 + [Next(ws2[|es2|], go)], es2 + [go];
      RunKeeps(ws2, es2, |es2|);
    }
    OutputAfterMute(ws2[|es2|], go);
    Extend(ws2, es2, go);
    ws2, es2 := ws2 + [Next(ws2[|es2|], go)], es2 + [go];
  }

  lemma StartSpeaking(w: World, go: Event)
    requires Inv(w) && Enabled(w, go) && Muted(w) && !OutputOn(w) && MaySpeak(w)
    requires go == AnnounceStep(w.control.current.value, false) && w.control.announcements[go.task].pc.Created?
    ensures
      var v := Next(w, go);
      && Muted(v) && !OutputOn(v) && v.control.current == w.control.current
      && v.control.announcements[go.task].pc.AwaitInterrupt?
      && !v.control.announcements[go.task].cancelled && v.control.transferStatement != ""
  {
  }

  ghost predicate Extends(ws: seq<World>, es: seq<Event>, ws2: seq<World>, es2: seq<Event>) {
    IsRun(ws2, es2) && ws <= ws2 && es <= es2
  }

  /**
   * Whether the output gate can open again after abort or cleanup has shut it is settled in that
   * state: it can exactly when the current announcement awaits the interruption, or has not begun
   * and is ahead of its deadline, is not cancelled, and has something to say.
   */
  lemma OutputReopens(ws: seq<World>, es: seq<Event>)
    requires IsRun(ws, es) && Muted(ws[|es|]) && !OutputOn(ws[|es|])
    ensures MaySpeak(ws[|es|]) <==> exists ws2, es2 :: Extends(ws, es, ws2, es2) && OutputOn(ws2[|es2|])
  {
    if MaySpeak(ws[|es|]) {
      var ws2, es2 := SpeakingRun(ws, es);
    } else {
      forall ws2, es2 | Extends(ws, es, ws2, es2) ensures !OutputOn(ws2[|es2|]) {
        QuietRuns(ws2, es2, |es|, |es2|);
      }
    }
  }

  lemma Extend(ws: seq<World>, es: seq<Event>, e: Event)
    requires IsRun(ws, es) && Enabled(ws[|ws| - 1], e)
    ensures IsRun(ws + [Next(ws[|ws| - 1], e)], es + [e])
  {
    var vs, fs := ws + [Next(ws[|ws| - 1], e)], es + [e];
    forall i: nat | i < |fs| ensures StepAt(vs, fs, i) {
      if i < |es| { assert StepAt(ws, es, i); }
    }
  }

  const MIC := A.Publication("TR", true, true, true)
  const LEG := A.Participant("sip", "PA", true, map["t" := "r"], [MIC])
  const GO := StartupStep("Connecting you.", "", {}, true, false)

  const READY := C.ControlState(
    Some(C.SessionState(true, true, [C.Greeting])), "Connecting you.", "", false, false, 0, true,
    [], [], None, None, C.NoStop, false, 0, 0, 0)

  lemma CreatedRun() returns (ws: seq<World>, es: seq<Event>)
    ensures IsRun(ws, es) && |ws| == 3
    ensures ws[2].control == READY.(session := Some(C.SessionState(false, false, [])), ready := false)
    ensures ws[2].startup.Starting? && !ws[2].startupCancel && !Muted(ws[2]) && ws[2].room == [LEG] && ws[2].now == 0
    ensures A.Valid(ws[2].adm, [LEG]) && ws[2].adm.leg == Some(A.SipLeg("sip", "PA", "r")) && ws[2].adm.requested == []
  {
    assert A.Sips([LEG]) == [LEG] by { assert [LEG][1..] == []; }
    assert A.Token(A.Fresh("t"), LEG) == Some("r");
    var w0 := Begin(0, [LEG], "t");
    ws, es := [w0], [];
    assert IsStart(w0) by { assert A.RoomOk([LEG]); }
    Extend(ws, es, GO);
    var w1 := Next(w0, GO);
    assert w1 == w0.(adm := w1.adm, startup := Authorizing) && w1.adm.leg == Some(A.SipLeg("sip", "PA", "r"));
    ws, es := ws + [w1], es + [GO];
    assert A.Valid(w1.adm, w1.room);
    Extend(ws, es, GO);
    ws, es := ws + [Next(w1, GO)], es + [GO];
  }

  lemma PublishingRun() returns (ws: seq<World>, es: seq<Event>)
    ensures IsRun(ws, es) && |ws| == 4
    ensures ws[3].control == READY.(session := Some(C.SessionState(false, false, [])), ready := false)
    ensures ws[3].startup.Publishing? && !ws[3].startupCancel && !Muted(ws[3]) && ws[3].now == 0
    ensures A.Valid(ws[3].adm, ws[3].room)
  {
    ws, es := CreatedRun();
    var w2 := ws[2];
    Extend(ws, es, GO);
    var s := A.SubscribeAudio(w2.adm, [LEG], {});
    assert s.outcome.Connected? && !s.abort && A.Valid(s.state, [LEG]) by {
      assert A.Find([LEG], "sip") == Some(LEG);
    }
    ws, es := ws + [Next(w2, GO)], es + [GO];
  }

  /** A job whose caller and microphone are already there becomes ready in four steps. */
  lemma ReadyRun() returns (ws: seq<World>, es: seq<Event>)
    ensures IsRun(ws, es) && |ws| == 5
    ensures ws[4].control == READY && !Muted(ws[4]) && ws[4].now == 0
  {
    ws, es := PublishingRun();
    Extend(ws, es, GO);
    var w4 := Next(ws[3], GO);
    assert w4.control.session.value.said == [C.Greeting];
    ws, es := ws + [w4], es + [GO];
  }

  /** A ready job asked for a transfer at once has its announcement await the interruption. */
  lemma AnnouncingRun() returns (ws: seq<World>, es: seq<Event>)
    ensures IsRun(ws, es) && |ws| == 7 && !Muted(ws[6])
    ensures ws[6].control.current == Some(0) && ws[6].control.transferStatement != "" && ws[6].control.session.Some?
    ensures ws[6].control.announcements == [C.Announcement(C.AwaitInterrupt, false, C.Armed(5000))]
  {
    ws, es := ReadyRun();
    var ask := Data(Some(C.Command("1", C.TransferRequested, 5000)), 0);
    Extend(ws, es, ask);
    var w5 := Next(ws[4], ask);
    assert w5.control.current == Some(0) && w5.control.announcements == [C.Announcement(C.Created, false, C.Unstarted)];
    assert !Muted(w5) && w5.now == 0 && w5.control.deadlineMs == 5000;
    ws, es := ws + [w5], es + [ask];
    var go := AnnounceStep(0, false);
    Extend(ws, es, go);
    ws, es := ws + [Next(w5, go)], es + [go];
  }

  /** The run that shows it: the SDK session closes while the announcement awaits the interruption. */
  lemma OutputReopensAfterAbort() returns (ws: seq<World>, es: seq<Event>)
    ensures IsRun(ws, es) && |ws| == 9
    ensures ws[7].aborted && !OutputOn(ws[7]) && OutputOn(ws[8])
  {
    ws, es := AnnouncingRun();
    Extend(ws, es, SessionClosed);
    var w7 := Next(ws[6], SessionClosed);
    assert w7.aborted && !OutputOn(w7) && w7.control.announcements == ws[6].control.announcements;
    ws, es := ws + [w7], es + [SessionClosed];
    var go := AnnounceStep(0, false);
    Extend(ws, es, go);
    ws, es := ws + [Next(w7, go)], es + [go];
  }

  // ----- no obsolete writer -----

  lemma AcceptedGrows(w: World, e: Event)
    requires Inv(w) && Enabled(w, e)
    ensures w.log.accepted <= Next(w, e).log.accepted
  {
    if e.Data? { DataApart(w, e.packet, e.lost); }
    else if e.StartupStep? { StartupApart(w, e); }
    else { OtherApart(w, e); }
  }

  /** Without a new command, abort or cleanup nothing ends the screening. */
  lemma ScreeningStep(w: World, e: Event)
    requires Inv(w) && Enabled(w, e) && C.Screening(w.control)
    requires !Muted(Next(w, e)) && Next(w, e).log.accepted == w.log.accepted
    ensures C.Screening(Next(w, e).control)
  {
    StepKeeps(w, e);
    if e.Data? {
      DataApart(w, e.packet, e.lost);
      assert !C.Accepts(w.control, e.packet);
    } else if !e.StartupStep? {
      OtherApart(w, e);
    }
  }

  lemma AcceptedAt(ws: seq<World>, es: seq<Event>, i: nat)
    requires IsRun(ws, es) && i < |es|
    ensures ws[i].log.accepted <= ws[i + 1].log.accepted
  {
    RunKeeps(ws, es, i);
    assert StepAt(ws, es, i);
    AcceptedGrows(ws[i], es[i]);
  }

  lemma {:induction false} AcceptedRuns(ws: seq<World>, es: seq<Event>, i: nat, j: nat)
    requires IsRun(ws, es) && i <= j < |ws|
    ensures ws[i].log.accepted <= ws[j].log.accepted
    decreases j
  {
    if i < j {
      AcceptedRuns(ws, es, i, j - 1);
      AcceptedAt(ws, es, j - 1);
    }
  }

  lemma ScreeningAt(ws: seq<World>, es: seq<Event>, i: nat)
    requires IsRun(ws, es) && i < |es| && C.Screening(ws[i].control)
    requires !Muted(ws[i + 1]) && ws[i + 1].log.accepted == ws[i].log.accepted
    ensures C.Screening(ws[i + 1].control)
  {
    RunKeeps(ws, es, i);
    assert StepAt(ws, es, i);
    ScreeningStep(ws[i], es[i]);
  }

  lemma NothingBetween(ws: seq<World>, es: seq<Event>, i: nat, j: nat)
    requires IsRun(ws, es) && i < j < |ws| && !Muted(ws[j]) && ws[j].log.accepted == ws[i].log.accepted
    ensures !Muted(ws[j - 1]) && ws[j - 1].log.accepted == ws[i].log.accepted
  {
    AcceptedRuns(ws, es, i, j - 1);
    AcceptedRuns(ws, es, j - 1, j);
    if Muted(ws[j - 1]) { MutedRuns(ws, es, j - 1, j); }
  }

  lemma {:induction false} ScreeningRuns(ws: seq<World>, es: seq<Event>, i: nat, j: nat)
    requires IsRun(ws, es) && i <= j < |ws|
    requires C.Screening(ws[i].control) && !Muted(ws[j]) && ws[j].log.accepted == ws[i].log.accepted
    ensures C.Screening(ws[j].control)
    decreases j
  {
    if i < j {
      assert !Muted(ws[j - 1]) && ws[j - 1].log.accepted == ws[i].log.accepted by {
        NothingBetween(ws, es, i, j);
      }
      ScreeningRuns(ws, es, i, j - 1);
      ScreeningAt(ws, es, j - 1);
    }
  }

  /**
   * After an accepted transfer_failed that is in time and finds the job ready, both gates stay
   * on until the next accepted command, whatever announcements were cancelled and still run.
   */
  lemma NoObsoleteWriter(ws: seq<World>, es: seq<Event>, i: nat, j: nat)
    requires IsRun(ws, es) && i < j < |ws| && es[i].Data? && C.Accepts(ws[i].control, es[i].packet)
    requires es[i].packet.value.action.TransferFailed? && es[i].packet.value.deadlineMs >= ws[i].now
    requires ws[i].control.ready && !Muted(ws[j]) && ws[j].log.accepted == ws[i + 1].log.accepted
    ensures InputOn(ws[j]) && OutputOn(ws[j])
  {
    if Muted(ws[i + 1]) { MutedRuns(ws, es, i + 1, j); }
    FailedScreens(ws, es, i);
    ScreeningRuns(ws, es, i + 1, j);
    RunKeeps(ws, es, j);
  }

  /** A timely transfer_failed puts a ready job back to screening. */
  lemma FailedScreens(ws: seq<World>, es: seq<Event>, i: nat)
    requires IsRun(ws, es) && i < |es| && es[i].Data? && C.Accepts(ws[i].control, es[i].packet)
    requires es[i].packet.value.action.TransferFailed? && es[i].packet.value.deadlineMs >= ws[i].now
    requires ws[i].control.ready && !Muted(ws[i + 1])
    ensures C.Screening(ws[i + 1].control)
  {
    RunKeeps(ws, es, i);
    assert StepAt(ws, es, i);
    DataApart(ws[i], es[i].packet, es[i].lost);
  }

  // ----- terminal takeover -----

  lemma StoppingStep(w: World, e: Event)
    requires Inv(w) && Enabled(w, e) && w.control.stopping
    ensures Next(w, e).control.stopping && Next(w, e).log.accepted == w.log.accepted
    ensures Next(w, e).log.takeover == w.log.takeover && Next(w, e).control.stopsCreated == 1
    ensures Greetings(Next(w, e)) == Greetings(w)
  {
    StepKeeps(w, e);
    if e.Data? { DataApart(w, e.packet, e.lost); }
    else if e.StartupStep? { StartupApart(w, e); }
    else { OtherApart(w, e); }
  }

  /** The session has been silenced and no announcement is left to open a gate. */
  ghost predicate Hushed(w: World) {
    w.control.stopping && w.control.current.None? && C.GatesOff(w.control)
  }

  lemma HushedStep(w: World, e: Event)
    requires Inv(w) && Enabled(w, e) && Hushed(w)
    ensures Hushed(Next(w, e))
  {
    StoppingStep(w, e);
    if IsTask(e) {
      TaskControl(w, e);
      TaskOpensNothing(w, e);
    } else {
      OthersHush(w, e);
    }
  }

  lemma OthersHush(w: World, e: Event)
    requires Inv(w) && Enabled(w, e) && Hushed(w) && !IsTask(e)
    ensures Next(w, e).control.current.None? && C.GatesOff(Next(w, e).control)
  {
    NoStartupAfterTakeover(w);
    if IsRoomEvent(e) { RoomControl(w, e); }
  }

  /** A room event leaves the handler alone, or silences it. */
  lemma RoomControl(w: World, e: Event)
    requires Enabled(w, e) && IsRoomEvent(e)
    ensures Next(w, e).control == w.control || (Next(w, e).control == C.Silence(w.control) && Muted(Next(w, e)))
  {
    match e
    case RoomChanged(room) => RoomSilences(w, room, A.Changed(w.adm, room));
    case ParticipantLeft(room, sid) => RoomSilences(w, room, A.Disconnected(w.adm, room, sid));
    case RoomDisconnected(room) => RoomSilences(w, room, A.Handled(w.adm, true));
    case TrackPublished(room, pub, who, failing) =>
      RoomSilences(w, room, A.TrackPublished(w.adm, room, pub, who, failing));
    case TrackSubscribed(room, pub, who) => RoomSilences(w, room, A.TrackSubscribed(w.adm, pub, who));
    case TrackFailed(sid, trackSid) => RoomSilences(w, w.room, A.SubscriptionFailed(w.adm, sid, trackSid));
    case TrackUnsubscribed(room, pub, who) => RoomSilences(w, room, A.TrackUnsubscribed(w.adm, pub, who));
  }

  lemma RoomSilences(w: World, room: A.Room, h: A.Handled)
    ensures
      var v := OnRoom(w, room, h);
      v.control == w.control || (v.control == C.Silence(w.control) && Muted(v))
  {
  }

  /** A takeover during startup has aborted it. */
  lemma NoStartupAfterTakeover(w: World)
    requires Inv(w) && w.control.stopping
    ensures !Pending(w.startup) || w.startupCancel
  {
  }

  lemma TaskOpensNothing(w: World, e: Event)
    requires Inv(w) && Enabled(w, e) && Hushed(w) && IsTask(e)
    ensures C.GatesOff(TaskNext(w, e))
  {
    SayIsLive(w.control);
    assert forall i: nat :: !C.Live(w.control, i);
  }

  /** How far the stop task has come. */
  function StopRank(stop: C.StopTask): nat {
    match stop
    case NoStop => 0
    case HandoffCreated(_) => 1
    case HandoffWaiting(_, _, _) => 2
    case StopCreated(_) => 2
    case Disconnecting(_) => 3
    case Completed => 4
  }

  lemma {:induction false} StoppingRuns(ws: seq<World>, es: seq<Event>, i: nat, j: nat)
    requires IsRun(ws, es) && i <= j < |ws| && ws[i].control.stopping
    ensures ws[j].control.stopping && ws[j].log.accepted == ws[i].log.accepted
    ensures ws[j].log.takeover == ws[i].log.takeover && Greetings(ws[j]) == Greetings(ws[i])
    ensures MovesOn(ws[i], ws[j])
    ensures Hushed(ws[i]) ==> Hushed(ws[j])
    decreases j
  {
    if i < j {
      StoppingRuns(ws, es, i, j - 1);
      RunKeeps(ws, es, j - 1);
      assert StepAt(ws, es, j - 1);
      StoppingStep(ws[j - 1], es[j - 1]);
      StopMovesOn(ws[j - 1], es[j - 1]);
      if Hushed(ws[j - 1]) { HushedStep(ws[j - 1], es[j - 1]); }
    }
  }

  /** The step leaves the stop task where it is, or moves it on. */
  ghost predicate MovesOn(w: World, v: World) { StopRank(w.control.stop) <= StopRank(v.control.stop) }

  lemma StopMovesOn(w: World, e: Event)
    requires Inv(w) && Enabled(w, e) && w.control.stopping
    ensures MovesOn(w, Next(w, e))
  {
    NoStartupAfterTakeover(w);
    if IsTask(e) { TaskMovesOn(w, e); }
    else if IsRoomEvent(e) { RoomMovesOn(w, e); }
    else if e.Data? { DataMovesOn(w, e); }
    else if e.EntryResumes? { EntryMovesOn(w, e); }
    else { OthersMoveOn(w, e); }
  }

  lemma TaskMovesOn(w: World, e: Event)
    requires Enabled(w, e) && IsTask(e)
    ensures MovesOn(w, Next(w, e))
  {
    match e
    case AnnounceStep(i, raised) => C.ResumeFrame(w.control, i, w.now, raised);
    case AnnounceSayFails(i) => C.FailedSayFrame(w.control, i);
    case _ =>
  }

  lemma RoomMovesOn(w: World, e: Event)
    requires Enabled(w, e) && IsRoomEvent(e)
    ensures MovesOn(w, Next(w, e))
  {
    RoomControl(w, e);
  }

  lemma DataMovesOn(w: World, e: Event)
    requires Enabled(w, e) && e.Data? && w.control.stopping
    ensures MovesOn(w, Next(w, e))
  {
  }

  lemma EntryMovesOn(w: World, e: Event)
    requires Enabled(w, e) && e.EntryResumes?
    ensures MovesOn(w, Next(w, e))
  {
    EntryLeaves(w);
  }

  lemma OthersMoveOn(w: World, e: Event)
    requires Enabled(w, e) && !IsTask(e) && !IsRoomEvent(e) && !e.Data? && !e.StartupStep? && !e.EntryResumes?
    ensures MovesOn(w, Next(w, e))
  {
  }

  /**
   * A takeover is final: stopping never reverts, no later command is accepted, no greeting
   * follows, one stop task exists, and a stop path that has silenced the session leaves both
   * gates off for good.  The stop task only moves on, makes exactly one disconnect attempt, and
   * exactly one shutdown when it ends, also when close() cancels it.
   */
  lemma TerminalTakeover(ws: seq<World>, es: seq<Event>, i: nat, j: nat)
    requires IsRun(ws, es) && i <= j < |ws| && ws[i].control.stopping
    ensures ws[j].control.stopping && ws[j].log.accepted == ws[i].log.accepted && ws[j].control.stopsCreated == 1
    ensures Greetings(ws[j]) == Greetings(ws[i])
    ensures C.Silenced(ws[i].control) ==> !InputOn(ws[j]) && !OutputOn(ws[j])
    ensures ws[j].control.shutdowns == (if ws[j].control.stop.Completed? then 1 else 0)
    ensures ws[j].control.disconnects
              == (if ws[j].control.stop.Disconnecting? || ws[j].control.stop.Completed? then 1 else 0)
    ensures StopRank(ws[i].control.stop) <= StopRank(ws[j].control.stop)
  {
    RunKeeps(ws, es, i);
    RunKeeps(ws, es, j);
    StoppingRuns(ws, es, i, j);
  }

  lemma SayIsLive(c: C.ControlState)
    ensures forall i: nat :: C.SayMayFail(c, i) ==> C.Live(c, i)
  {
  }

  /** While the outro of a takeover plays, only its own end, the deadline or a closing job mutes it. */
  lemma OutroKeepsPlaying(w: World, e: Event)
    requires Inv(w) && Enabled(w, e) && w.control.stopping && C.Playing(w.control) && OutputOn(w)
    ensures || OutputOn(Next(w, e)) || Muted(Next(w, e))
            || (e.AnnounceStep? && w.control.current == Some(e.task))
            || (e.StopStep? && w.control.stop.HandoffWaiting? && w.control.stop.when <= w.now)
            || (e.StopStep? && w.control.stopCancelled)
  {
    if IsTask(e) { TaskLetsPlay(w, e); } else { OthersLetPlay(w, e); }
  }

  lemma TaskLetsPlay(w: World, e: Event)
    requires Inv(w) && Enabled(w, e) && C.Playing(w.control) && OutputOn(w) && IsTask(e)
    ensures || OutputOn(w.(control := TaskNext(w, e)))
            || (e.AnnounceStep? && w.control.current == Some(e.task))
            || (e.StopStep? && w.control.stop.HandoffWaiting?
                && (w.control.stop.when <= w.now || w.control.stopCancelled))
  {
    SayIsLive(w.control);
  }

  lemma OthersLetPlay(w: World, e: Event)
    requires Inv(w) && Enabled(w, e) && w.control.stopping && OutputOn(w) && !IsTask(e)
    ensures OutputOn(Next(w, e)) || Muted(Next(w, e))
  {
    NoStartupAfterTakeover(w);
    if IsRoomEvent(e) { RoomControl(w, e); }
    else if e.Data? { DataApart(w, e.packet, e.lost); }
  }

  // ----- startup order -----

  /** Readiness is published only from a turn of subscribe_audio that has the microphone. */
  lemma ReadinessHears(w: World, e: Event)
    requires Inv(w) && Enabled(w, e) && e.StartupStep? && (w.startup.Starting? || w.startup.Subscribing?)
    requires Next(w, e).startup.Publishing?
    ensures A.Hears(Next(w, e).adm, Next(w, e).room)
  {
    if w.startup.Starting? {
      var v := w.(log := w.log.(sessionStarted := true));
      var s := A.SubscribeAudio(w.adm, w.room, e.failing);
      AudioConnected(v, s, e.localKnown);
      A.ConnectedHears(w.adm.(authorized := true), w.room, e.failing);
    } else {
      AudioConnected(w, A.SubscribeTurn(w.adm, w.room, e.failing), e.localKnown);
      A.ConnectedHears(w.adm, w.room, e.failing);
    }
  }

  lemma AudioConnected(w: World, s: A.Subscription, localKnown: bool)
    requires AfterAudio(w, s, localKnown).startup.Publishing?
    ensures s.outcome.Connected? && AfterAudio(w, s, localKnown).adm == s.state
    ensures AfterAudio(w, s, localKnown).room == w.room
  {
  }

  ghost predicate ChecksPassed(w: World, v: World) {
    v.log.readiness != w.log.readiness ==>
      v.startup.Publishing? && A.Valid(v.adm, v.room) && !v.aborted && !v.control.stopping
  }

  lemma ReadinessFrom(w: World, e: Event)
    requires Enabled(w, e) && e.StartupStep? && (w.startup.Starting? || w.startup.Subscribing?)
    ensures ChecksPassed(w, Next(w, e))
  {
    if w.startup.Starting? { FirstTurnReady(w, e); } else { NextTurnReady(w, e); }
  }

  lemma FirstTurnReady(w: World, e: Event)
    requires Enabled(w, e) && e.StartupStep? && w.startup.Starting?
    ensures ChecksPassed(w, Next(w, e))
  {
    AudioReady(w.(log := w.log.(sessionStarted := true)), A.SubscribeAudio(w.adm, w.room, e.failing), e.localKnown);
  }

  lemma NextTurnReady(w: World, e: Event)
    requires Enabled(w, e) && e.StartupStep? && w.startup.Subscribing?
    ensures ChecksPassed(w, Next(w, e))
  {
    AudioReady(w, A.SubscribeTurn(w.adm, w.room, e.failing), e.localKnown);
  }

  /** A step that publishes readiness, for the first time. */
  ghost predicate Publishes(w: World, v: World) {
    && w.log.readiness == 0 && v.log.readiness == 1
    && v.log.profileAuthorized && v.log.sessionStarted && v.adm.authorized && v.adm.connected
    && A.Valid(v.adm, v.room) && A.Hears(v.adm, v.room) && !Muted(v) && !v.control.stopping
    && !InputOn(v) && !OutputOn(v)
  }

  /**
   * Readiness goes out once, and only for an authorized, started and still valid leg whose
   * microphone is subscribed.
   */
  lemma ReadinessStep(w: World, e: Event)
    requires Inv(w) && Enabled(w, e)
    ensures Next(w, e).log.readiness == w.log.readiness || Publishes(w, Next(w, e))
  {
    StepKeeps(w, e);
    if e.Data? { DataApart(w, e.packet, e.lost); }
    else if e.StartupStep? {
      StartupApart(w, e);
      if Next(w, e).log.readiness != w.log.readiness {
        ReadinessFrom(w, e);
        ReadinessHears(w, e);
      }
    }
    else { OtherApart(w, e); }
  }

  /** The greeting follows readiness, and neither a pending transfer nor a takeover. */
  lemma GreetingStep(w: World, e: Event)
    requires Inv(w) && Enabled(w, e)
    ensures Greetings(Next(w, e)) != Greetings(w) ==>
              && Greetings(w) == 0 && Greetings(Next(w, e)) == 1
              && w.startup.Publishing? && w.log.readiness == 1 && A.Valid(w.adm, w.room)
              && !w.control.transferring && !w.control.stopping && !Muted(w)
              && InputOn(Next(w, e)) && OutputOn(Next(w, e))
  {
    StepKeeps(w, e);
    if e.Data? { DataApart(w, e.packet, e.lost); }
    else if e.StartupStep? { StartupApart(w, e); }
    else { OtherApart(w, e); }
  }

  lemma {:induction false} ReadinessCame(ws: seq<World>, es: seq<Event>, i: nat)
    requires IsRun(ws, es) && i < |ws| && ws[i].log.readiness == 1
    ensures exists k: nat :: k < i && Publishes(ws[k], ws[k + 1])
  {
    assert i > 0;
    RunKeeps(ws, es, i - 1);
    assert StepAt(ws, es, i - 1);
    ReadinessStep(ws[i - 1], es[i - 1]);
    if ws[i - 1].log.readiness == 1 {
      ReadinessCame(ws, es, i - 1);
    }
  }

  /**
   * In every state: readiness and then a greeting, each at most once; and where readiness has
   * been published, an earlier step published it as ReadinessStep says.
   */
  lemma StartupOrder(ws: seq<World>, es: seq<Event>, i: nat)
    requires IsRun(ws, es) && i < |ws|
    ensures ws[i].log.readiness <= 1 && Greetings(ws[i]) <= ws[i].log.readiness
    ensures ws[i].control.ready ==> ws[i].log.readiness == 1
    ensures ws[i].log.readiness == 1 ==> exists k: nat :: k < i && Publishes(ws[k], ws[k + 1])
  {
    RunKeeps(ws, es, i);
    if ws[i].log.readiness == 1 { ReadinessCame(ws, es, i); }
  }

  // ----- shutdown by abort -----

  /** Every abort calls ctx.shutdown, so this is how often it was called. */
  ghost predicate AbortsOnce(w: World) { w.log.aborts == (if w.aborted then 1 else 0) }

  lemma AbortCounts(w: World)
    requires AbortsOnce(w)
    ensures AbortsOnce(Abort(w)) && AbortsOnce(Cleanup(w))
  {
  }

  lemma RoomCounts(w: World, e: Event)
    requires AbortsOnce(w) && Enabled(w, e) && IsRoomEvent(e)
    ensures AbortsOnce(Next(w, e))
  {
  }

  lemma DataCounts(w: World, e: Event)
    requires AbortsOnce(w) && Enabled(w, e) && e.Data?
    ensures AbortsOnce(Next(w, e))
  {
    if !Muted(w) { AbortCounts(Deliver(w, e.packet, e.lost)); }
  }

  lemma AudioCounts(w: World, s: A.Subscription, localKnown: bool)
    requires AbortsOnce(w)
    ensures AbortsOnce(AfterAudio(w, s, localKnown))
  {
    AbortCounts(w.(adm := s.state));
  }

  lemma StartupCounts(w: World, e: Event)
    requires AbortsOnce(w) && Enabled(w, e) && e.StartupStep?
    ensures AbortsOnce(Next(w, e))
  {
    match w.startup
    case Starting =>
      AudioCounts(w.(log := w.log.(sessionStarted := true)), A.SubscribeAudio(w.adm, w.room, e.failing), e.localKnown);
    case Subscribing => AudioCounts(w, A.SubscribeTurn(w.adm, w.room, e.failing), e.localKnown);
    case _ =>
  }

  lemma EntryCounts(w: World, e: Event)
    requires AbortsOnce(w) && Enabled(w, e) && e.EntryResumes?
    ensures AbortsOnce(Next(w, e))
  {
    AbortCounts(w);
    AbortCounts(AbortIf(w, w.startup.Raised? || w.startupCancel).(entryDone := true));
  }

  lemma OthersCount(w: World, e: Event)
    requires AbortsOnce(w) && Enabled(w, e)
    requires !IsRoomEvent(e) && !e.Data? && !e.StartupStep? && !e.EntryResumes?
    ensures AbortsOnce(Next(w, e))
  {
    AbortCounts(w);
  }

  lemma CountStep(w: World, e: Event)
    requires AbortsOnce(w) && Enabled(w, e)
    ensures AbortsOnce(Next(w, e))
  {
    if IsRoomEvent(e) { RoomCounts(w, e); }
    else if e.Data? { DataCounts(w, e); }
    else if e.StartupStep? { StartupCounts(w, e); }
    else if e.EntryResumes? { EntryCounts(w, e); }
    else { OthersCount(w, e); }
  }

  /** Whatever aborts the job, and however often, it asks the SDK to shut down once. */
  lemma {:induction false} AbortsAreOne(ws: seq<World>, es: seq<Event>, i: nat)
    requires IsRun(ws, es) && i < |ws|
    ensures ws[i].log.aborts == (if ws[i].aborted then 1 else 0)
  {
    if i > 0 {
      AbortsAreOne(ws, es, i - 1);
      assert StepAt(ws, es, i - 1);
      CountStep(ws[i - 1], es[i - 1]);
    }
  }

  // ----- command memory -----

  /**
   * The memory is the last 256 accepted ids in order, accepted ids repeat only beyond that
   * distance, and a packet that is not accepted changes nothing in the handler.
   */
  lemma CommandMemory(ws: seq<World>, es: seq<Event>, i: nat)
    requires IsRun(ws, es) && i < |ws|
    ensures
      var log := ws[i].log.accepted;
      && ws[i].control.seen == C.Ids(log)[(if |log| > 256 then |log| - 256 else 0)..]
      && (forall j, k :: 0 <= j < k < |log| && k - j <= 256 ==> log[j].id != log[k].id)
    ensures i < |es| && es[i].Data? && !C.Accepts(ws[i].control, es[i].packet) ==>
              ws[i + 1].control == ws[i].control
  {
    RunKeeps(ws, es, i);
    if i < |es| && es[i].Data? && !C.Accepts(ws[i].control, es[i].packet) {
      assert StepAt(ws, es, i);
      assert Deliver(ws[i], es[i].packet, es[i].lost).control == ws[i].control;
    }
  }

  // ----- announcements -----

  /**
   * At most one announcement may still act, and it is the one the handler points to.  A current
   * announcement exists only during a transfer and has not ended; the timeout pointer is its own,
   * absent only until it begins; its only cancellation is that of its expiring timer; and while
   * the timer is armed it is due at the transfer deadline (a takeover may leave it one
   * millisecond later).
   */
  lemma AnnouncementOwnership(ws: seq<World>, es: seq<Event>, i: nat)
    requires IsRun(ws, es) && i < |ws|
    ensures forall j: nat :: C.Live(ws[i].control, j) ==> ws[i].control.current == Some(j)
    ensures ws[i].control.current.None? ==> ws[i].control.timeout.None?
    ensures ws[i].control.current.Some? ==>
              var c := ws[i].control;
              && c.transferring && c.current.value < |c.announcements|
              && var t := c.announcements[c.current.value];
                 && !t.pc.Finished? && c.timeout == (if t.pc.Created? then None else c.current)
                 && (t.cancelled <==> t.timer.Expiring?) && (t.pc.Created? <==> t.timer.Unstarted?)
                 && (t.timer.Armed? ==> c.deadlineMs <= t.timer.when <= c.deadlineMs + (if c.stopping then 1 else 0))
  {
    RunKeeps(ws, es, i);
  }

  // ----- admission -----

  /** No lost wakeup: a suspended wait with its event clear has nothing it would act on. */
  lemma NoLostWakeup(ws: seq<World>, es: seq<Event>, i: nat)
    requires IsRun(ws, es) && i < |ws| && !Muted(ws[i]) && !ws[i].adm.changed
    ensures ws[i].startup.Waiting? ==> !A.WaitWouldAct(ws[i].adm, ws[i].room)
    ensures ws[i].startup.Subscribing? ==> !A.AudioWouldAct(ws[i].adm, ws[i].room)
  {
    RunKeeps(ws, es, i);
  }

  /** Whose publications a step may ask for: those of the bound leg, once it is authorized. */
  ghost predicate AsksFor(w: World, e: Event, sid: string) {
    && w.adm.leg.Some? && !w.cleaned
    && match e
       case TrackPublished(room, pub, who, _) =>
         pub.sid == sid && w.adm.authorized && A.BoundAudio(w.adm, pub, who.identity, who.sid)
       case StartupStep(_, _, _, _, _) =>
         (w.startup.Starting? || w.startup.Subscribing?)
         && exists p, q :: p in w.room && q in p.tracks && q.sid == sid && A.BoundAudio(w.adm, q, p.identity, p.sid)
       case _ => false
  }

  lemma TurnAsks(a: A.AdmissionState, room: A.Room, failing: set<string>, sid: string)
    requires A.Inv(a) && a.authorized && A.RoomOk(room)
    requires sid in A.SubscribeTurn(a, room, failing).state.subscribed && sid !in a.subscribed
    ensures exists p, q :: p in room && q in p.tracks && q.sid == sid && A.BoundAudio(a, q, p.identity, p.sid)
  {
    var c := a.(changed := false);
    A.FindIs(room, c.leg.value.identity);
    var p := A.Find(room, c.leg.value.identity).value;
    A.ScanKeeps(c, room, p, p.tracks, failing);
    var q :| q in p.tracks && q.sid == sid && A.BoundAudio(c, q, p.identity, p.sid);
    assert A.BoundAudio(a, q, p.identity, p.sid);
  }

  lemma PublishedAsks(w: World, e: Event, sid: string)
    requires Inv(w) && Enabled(w, e) && e.TrackPublished?
    requires sid in Next(w, e).adm.subscribed && sid !in w.adm.subscribed
    ensures AsksFor(w, e, sid)
  {
    A.TrackPublishedKeeps(w.adm, e.room, e.pub, e.who, e.failing);
  }

  lemma StartupAsks(w: World, e: Event, sid: string)
    requires Inv(w) && Enabled(w, e) && e.StartupStep?
    requires sid in Next(w, e).adm.subscribed && sid !in w.adm.subscribed
    ensures AsksFor(w, e, sid)
  {
    if w.startup.Starting? {
      AudioAdm(w.(log := w.log.(sessionStarted := true)), A.SubscribeAudio(w.adm, w.room, e.failing), e.localKnown);
      TurnAsks(w.adm.(authorized := true), w.room, e.failing, sid);
    } else if w.startup.Subscribing? {
      AudioAdm(w, A.SubscribeTurn(w.adm, w.room, e.failing), e.localKnown);
      TurnAsks(w.adm, w.room, e.failing, sid);
    }
  }

  lemma AudioAdm(w: World, s: A.Subscription, localKnown: bool)
    ensures AfterAudio(w, s, localKnown).adm == s.state
  {
  }

  lemma RoomAdm(w: World, room: A.Room, h: A.Handled)
    ensures OnRoom(w, room, h).adm == (if w.cleaned then w.adm else h.state)
  {
  }

  lemma OthersAsk(w: World, e: Event)
    requires Inv(w) && Enabled(w, e) && !e.TrackPublished? && !e.StartupStep?
    ensures Next(w, e).adm.subscribed == w.adm.subscribed
  {
    if !IsRoomEvent(e) { OthersAdm(w, e); } else { RoomEventAdm(w, e); }
  }

  lemma OthersAdm(w: World, e: Event)
    requires Enabled(w, e) && !IsRoomEvent(e) && !e.StartupStep?
    ensures Next(w, e).adm.subscribed == w.adm.subscribed
  {
    if e.EntryResumes? { EntryLeaves(w); }
    AbortLeaves(w);
    CleanupLeaves(w);
  }

  lemma RoomEventAdm(w: World, e: Event)
    requires Enabled(w, e) && IsRoomEvent(e) && !e.TrackPublished?
    ensures Next(w, e).adm.subscribed == w.adm.subscribed
  {
    match e
    case RoomChanged(room) => RoomAdm(w, room, A.Changed(w.adm, room));
    case ParticipantLeft(room, sid) => RoomAdm(w, room, A.Disconnected(w.adm, room, sid));
    case RoomDisconnected(room) => RoomAdm(w, room, A.Handled(w.adm, true));
    case TrackSubscribed(room, pub, who) => RoomAdm(w, room, A.TrackSubscribed(w.adm, pub, who));
    case TrackFailed(sid, trackSid) => RoomAdm(w, w.room, A.SubscriptionFailed(w.adm, sid, trackSid));
    case TrackUnsubscribed(room, pub, who) => RoomAdm(w, room, A.TrackUnsubscribed(w.adm, pub, who));
  }

  /** Every publication a step asks for is a microphone of the bound leg, after authorization. */
  lemma SubscriptionStep(w: World, e: Event, sid: string)
    requires Inv(w) && Enabled(w, e)
    requires sid in Next(w, e).adm.subscribed && sid !in w.adm.subscribed
    ensures AsksFor(w, e, sid)
  {
    if e.TrackPublished? { PublishedAsks(w, e, sid); }
    else if e.StartupStep? { StartupAsks(w, e, sid); }
    else { OthersAsk(w, e); }
  }

  lemma ClosedStep(w: World, e: Event)
    requires Inv(w) && Enabled(w, e) && w.cleaned
    ensures Next(w, e).cleaned && Next(w, e).adm == w.adm
  {
  }

  lemma ClosedAt(ws: seq<World>, es: seq<Event>, i: nat)
    requires IsRun(ws, es) && i < |es| && ws[i].cleaned
    ensures ws[i + 1].cleaned && ws[i + 1].adm == ws[i].adm
  {
    RunKeeps(ws, es, i);
    assert StepAt(ws, es, i);
    ClosedStep(ws[i], es[i]);
  }

  lemma {:induction false} ClosedStays(ws: seq<World>, es: seq<Event>, i: nat, j: nat)
    requires IsRun(ws, es) && i <= j < |ws| && ws[i].cleaned
    ensures ws[j].cleaned && ws[j].adm == ws[i].adm
    decreases j
  {
    if i < j {
      ClosedStays(ws, es, i, j - 1);
      ClosedAt(ws, es, j - 1);
    }
  }

  /**
   * Each publication is asked for once; closing takes each back once, and nothing is asked for
   * or taken back afterwards.
   */
  lemma Subscriptions(ws: seq<World>, es: seq<Event>, i: nat, j: nat)
    requires IsRun(ws, es) && i <= j < |ws|
    ensures A.Distinct(ws[i].adm.subscribed)
    ensures ws[i].adm.unsubscribed == (if ws[i].cleaned then ws[i].adm.subscribed else [])
    ensures ws[i].cleaned ==> ws[j].cleaned && ws[j].adm == ws[i].adm
  {
    RunKeeps(ws, es, i);
    if ws[i].cleaned { ClosedStays(ws, es, i, j); }
  }
}
