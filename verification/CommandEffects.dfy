/**
 * What each command does to a job, written out on the job's own variables, and how long a
 * takeover waits for the outro.
 */
module CommandEffects {
  import opened Wrappers
  import opened Worker
  import opened WorkerInvariant
  import opened WorkerRuns
  import C = Control

  // ----- which packets are accepted -----

  ghost predicate TakenOver(w: World) {
    exists k :: 0 <= k < |w.log.accepted| && w.log.accepted[k].action.HumanAnswered?
  }

  lemma ReceiveStops(c: C.ControlState, packet: Option<C.Command>, now: int, lost: nat)
    ensures C.Receive(c, packet, now, lost).stopping
            == (c.stopping || (C.Accepts(c, packet) && packet.value.action.HumanAnswered?))
  {
    if C.Accepts(c, packet) {
      var cmd := packet.value;
      var d := c.(seen := C.Remember(c.seen, cmd.id));
      match cmd.action
      case HumanAnswered => AnsweredStops(d, cmd.deadlineMs, now, lost);
      case TransferRequested => C.StartFrame(d.(transferring := true, deadlineMs := cmd.deadlineMs), now);
      case TransferFailed => FailedStops(d, cmd.deadlineMs, now);
    }
  }

  lemma AnsweredStops(c: C.ControlState, deadlineMs: int, now: int, lost: nat)
    ensures C.Answered(c, deadlineMs, now, lost).stopping
  {
    var r := C.Grace(deadlineMs, now);
    C.StartFrame(c.(stopping := true, deadlineMs := now + r - lost, transferring := true), now);
    assert C.Prepare(c, deadlineMs, now, lost).stopping;
  }

  lemma FailedStops(c: C.ControlState, deadlineMs: int, now: int)
    ensures C.Failed(c, deadlineMs, now).stopping == c.stopping
  {
  }

  lemma DataTakesOver(w: World, e: Event)
    requires Inv(w) && Enabled(w, e) && e.Data? && (w.control.stopping <==> TakenOver(w))
    ensures Next(w, e).control.stopping <==> TakenOver(Next(w, e))
  {
    if !Muted(w) && C.Accepts(w.control, e.packet) {
      ReceiveStops(w.control, e.packet, w.now, e.lost);
      var v := Deliver(w, e.packet, e.lost);
      AbortApart(v);
      TakenOverAppend(w, v, e.packet.value);
    } else {
      DataApart(w, e.packet, e.lost);
    }
  }

  lemma TakenOverAppend(w: World, v: World, command: C.Command)
    requires v.log.accepted == w.log.accepted + [command]
    ensures TakenOver(v) <==> TakenOver(w) || command.action.HumanAnswered?
  {
    if TakenOver(w) {
      var k :| 0 <= k < |w.log.accepted| && w.log.accepted[k].action.HumanAnswered?;
      assert v.log.accepted[k].action.HumanAnswered?;
    }
    assert v.log.accepted[|w.log.accepted|] == command;
  }

  lemma StepTakesOver(w: World, e: Event)
    requires Inv(w) && Enabled(w, e) && (w.control.stopping <==> TakenOver(w))
    ensures Next(w, e).control.stopping <==> TakenOver(Next(w, e))
  {
    if e.Data? { DataTakesOver(w, e); }
    else if e.StartupStep? { StartupApart(w, e); }
    else { OtherApart(w, e); }
  }

  /** The job is stopping exactly when a human_answered command has been accepted. */
  lemma {:induction false} StoppingMeansTakeover(ws: seq<World>, es: seq<Event>, i: nat)
    requires IsRun(ws, es) && i < |ws|
    ensures ws[i].control.stopping <==> TakenOver(ws[i])
  {
    if i > 0 {
      StoppingMeansTakeover(ws, es, i - 1);
      TakesOverAt(ws, es, i - 1);
    }
  }

  lemma TakesOverAt(ws: seq<World>, es: seq<Event>, i: nat)
    requires IsRun(ws, es) && i < |es| && (ws[i].control.stopping <==> TakenOver(ws[i]))
    ensures ws[i + 1].control.stopping <==> TakenOver(ws[i + 1])
  {
    RunKeeps(ws, es, i);
    assert StepAt(ws, es, i);
    StepTakesOver(ws[i], es[i]);
  }

  lemma NotRemembered(seen: seq<string>, log: seq<C.Command>, id: string)
    requires C.Dedup(seen, log)
    ensures id !in seen <==> forall k :: 0 <= k < |log| && |log| - k <= 256 ==> log[k].id != id
  {
    var from := if |log| > 256 then |log| - 256 else 0;
    assert seen == C.Ids(log)[from..];
    forall k | from <= k < |log| ensures log[k].id in seen {
      assert C.Ids(log)[from..][k - from] == log[k].id;
    }
    if id in seen {
      var m :| 0 <= m < |seen| && seen[m] == id;
      assert log[from + m].id == id;
    }
  }

  /**
   * A packet is accepted exactly when it is a valid command, comes before abort, cleanup and any
   * takeover, and its id is none of the last 256 accepted.
   */
  lemma AcceptedExactly(ws: seq<World>, es: seq<Event>, i: nat)
    requires IsRun(ws, es) && i < |es| && es[i].Data?
    ensures
      var log, packet := ws[i].log.accepted, es[i].packet;
      ws[i + 1].log.accepted
      == if packet.Some? && !ws[i].aborted && !ws[i].cleaned
            && (forall k :: 0 <= k < |log| ==> !log[k].action.HumanAnswered?)
            && (forall k :: 0 <= k < |log| && |log| - k <= 256 ==> log[k].id != packet.value.id)
         then log + [packet.value] else log
  {
    RunKeeps(ws, es, i);
    StoppingMeansTakeover(ws, es, i);
    assert StepAt(ws, es, i);
    DataApart(ws[i], es[i].packet, es[i].lost);
    if es[i].packet.Some? { NotRemembered(ws[i].control.seen, ws[i].log.accepted, es[i].packet.value.id); }
  }

  // ----- the announcements a command leaves -----

  /** The tasks are the same, but for a cancellation of the current one. */
  ghost predicate OldTasks(c: C.ControlState, ts: seq<C.Announcement>)
  {
    && |ts| == |c.announcements|
    && forall k :: 0 <= k < |ts| ==>
         ts[k] == c.announcements[k].(cancelled := c.announcements[k].cancelled || c.current == Some(k))
  }

  ghost predicate Accepted(w: World, e: Event) {
    e.Data? && !Muted(w) && C.Accepts(w.control, e.packet)
  }

  /** What only depends on there having been a command. */
  ghost predicate SameButCommand(w: World, v: World) {
    v == w.(control := v.control, log := w.log.(accepted := v.log.accepted, takeover := v.log.takeover))
  }

  lemma RequestedControl(c: C.ControlState, deadlineMs: int, now: int)
    requires C.Inv(c) && !c.stopping && deadlineMs > now && c.ready && c.session.Some?
    ensures
      var d := C.Requested(c, deadlineMs, now);
      && d.transferring && d.session.Some? && !d.session.value.input && !d.session.value.output
      && d.session.value.said == c.session.value.said
      && d.deadlineMs == (if deadlineMs - now > 10000 then now + 10000 else deadlineMs)
      && d.current == Some(|c.announcements|) && |d.announcements| == |c.announcements| + 1
      && OldTasks(c, d.announcements[..|c.announcements|])
      && d.announcements[|c.announcements|] == C.Announcement(C.Created, false, C.Unstarted)
      && d.stop == c.stop && !d.stopping && d.ready
  {
  }

  /**
   * transfer_requested: nothing happens when its deadline has come; a job that is not ready only
   * notes the transfer and its deadline; a ready one turns both gates off and has one new
   * announcement, the old one cancelled, within the deadline and ten seconds.
   */
  lemma RequestedEffects(w: World, e: Event)
    requires Inv(w) && Enabled(w, e) && Accepted(w, e) && e.packet.value.action.TransferRequested?
    ensures
      var d, c, v := e.packet.value.deadlineMs, w.control, Next(w, e);
      && SameButCommand(w, v)
      && (d <= w.now ==> v.control == c.(seen := v.control.seen))
      && (d > w.now && !c.ready ==> v.control == c.(seen := v.control.seen, transferring := true, deadlineMs := d))
      && (d > w.now && c.ready ==>
            && v.control.transferring && !v.control.stopping && !InputOn(v) && !OutputOn(v)
            && v.control.deadlineMs == (if d - w.now > 10000 then w.now + 10000 else d)
            && v.control.current == Some(|c.announcements|) && |v.control.announcements| == |c.announcements| + 1
            && OldTasks(c, v.control.announcements[..|c.announcements|])
            && v.control.announcements[|c.announcements|] == C.Announcement(C.Created, false, C.Unstarted))
  {
    var cmd := e.packet.value;
    var c := w.control.(seen := C.Remember(w.control.seen, cmd.id));
    RememberInv(w.control, c.seen);
    if cmd.deadlineMs > w.now && c.ready { RequestedControl(c, cmd.deadlineMs, w.now); }
  }

  lemma RememberInv(c: C.ControlState, seen: seq<string>)
    requires C.Inv(c)
    ensures C.Inv(c.(seen := seen))
  {
    assert forall i: nat :: C.Live(c.(seen := seen), i) <==> C.Live(c, i);
  }

  lemma FailedControl(c: C.ControlState, deadlineMs: int, now: int)
    requires C.Inv(c) && !c.stopping && deadlineMs >= now && (c.ready ==> c.session.Some?)
    ensures
      var d := C.Failed(c, deadlineMs, now);
      && !d.transferring && !d.stopping && d.current.None? && OldTasks(c, d.announcements)
      && (c.ready ==>
            d.session == Some(C.SessionState(true, true,
              c.session.value.said + (if c.failedStatement != "" then [C.FailureNotice] else []))))
      && (!c.ready ==> d.session == c.session)
  {
    assert c.ready && c.failedStatement == "" ==> c.session.value.said + [] == c.session.value.said;
  }

  /**
   * transfer_failed: nothing happens after its deadline; otherwise the transfer is over, its
   * announcement cancelled, and a ready job has both gates on and says the failure notice, if
   * there is one.
   */
  lemma FailedEffects(w: World, e: Event)
    requires Inv(w) && Enabled(w, e) && Accepted(w, e) && e.packet.value.action.TransferFailed?
    ensures
      var d, c, v := e.packet.value.deadlineMs, w.control, Next(w, e);
      && SameButCommand(w, v)
      && (d < w.now ==> v.control == c.(seen := v.control.seen))
      && (d >= w.now ==>
            && !v.control.transferring && !v.control.stopping && v.control.current.None?
            && OldTasks(c, v.control.announcements)
            && v.control.session
               == if !c.ready then c.session
                  else Some(C.SessionState(true, true,
                    c.session.value.said + (if c.failedStatement != "" then [C.FailureNotice] else []))))
  {
    var cmd := e.packet.value;
    var c := w.control.(seen := C.Remember(w.control.seen, cmd.id));
    RememberInv(w.control, c.seen);
    if cmd.deadlineMs >= w.now { FailedControl(c, cmd.deadlineMs, w.now); }
  }

  // ----- human_answered -----

  /** There is an outro that the takeover can wait for: one that runs, or the missed one. */
  predicate HasOutro(c: C.ControlState) {
    c.current.Some? || (!c.transferring && c.transferStatement != "")
  }

  lemma WaitsControl(c: C.ControlState, deadlineMs: int, now: int, lost: nat)
    requires C.Inv(c) && !c.stopping && c.ready && c.session.Some? && deadlineMs > now && HasOutro(c) && lost <= 1
    ensures
      var r := if deadlineMs - now > 10000 then 10000 else deadlineMs - now;
      var d := C.Answered(c, deadlineMs, now, lost);
      && d.stopping && d.transferring && d.session.Some? && !d.session.value.input
      && d.deadlineMs == now + r - lost && d.stop == C.HandoffCreated(now + r - lost)
      && (c.current.Some? ==> d.current == c.current && d.session.value.output == c.session.value.output)
      && (c.current.None? ==>
            && d.current == Some(|c.announcements|) && |d.announcements| == |c.announcements| + 1
            && d.announcements[|c.announcements|] == C.Announcement(C.Created, false, C.Unstarted)
            && !d.session.value.output)
      && d.current.value < |d.announcements| && d.stopCancelled == c.stopCancelled
  {
    var r := C.Grace(deadlineMs, now);
    var p := C.Prepare(c, deadlineMs, now, lost);
    assert p.current.Some? && p.deadlineMs == now + r - lost;
  }

  lemma LeavesControl(c: C.ControlState, deadlineMs: int, now: int, lost: nat)
    requires C.Inv(c) && !c.stopping && (c.ready ==> c.session.Some?) && !(c.ready && deadlineMs > now && HasOutro(c))
    ensures
      var r := if deadlineMs <= now then 0 else if deadlineMs - now > 10000 then 10000 else deadlineMs - now;
      var d := C.Answered(c, deadlineMs, now, lost);
      && d.stopping && d.current.None? && C.GatesOff(d) && d.stop == C.StopCreated(r)
      && OldTasks(c, d.announcements)
  {
  }

  ghost predicate TakesOver(w: World, e: Event) {
    Accepted(w, e) && e.packet.value.action.HumanAnswered?
  }

  lemma AnsweredWaits(w: World, e: Event)
    requires Inv(w) && Enabled(w, e) && TakesOver(w, e)
    requires w.control.ready && e.packet.value.deadlineMs > w.now && HasOutro(w.control)
    ensures
      var d, t, c, v := e.packet.value.deadlineMs, w.now, w.control, Next(w, e);
      var r := if d - t > 10000 then 10000 else d - t;
      && v.control.stopping && !InputOn(v) && v.aborted == w.aborted && !v.control.stopCancelled
      && v.control.deadlineMs == t + r - e.lost && v.control.stop == C.HandoffCreated(t + r - e.lost)
      && v.control.current == (if c.current.Some? then c.current else Some(|c.announcements|))
      && v.control.current.value < |v.control.announcements|
      && (OutputOn(v) <==> c.current.Some? && OutputOn(w))
  {
    var cmd := e.packet.value;
    var c := w.control.(seen := C.Remember(w.control.seen, cmd.id));
    RememberInv(w.control, c.seen);
    WaitsControl(c, cmd.deadlineMs, w.now, e.lost);
    ReadyStays(c, cmd.deadlineMs, w.now, e.lost);
  }

  lemma ReadyStays(c: C.ControlState, deadlineMs: int, now: int, lost: nat)
    ensures C.Answered(c, deadlineMs, now, lost).ready == c.ready
  {
    C.AnsweredFrame(c, deadlineMs, now, lost);
  }

  lemma AnsweredLeaves(w: World, e: Event)
    requires Inv(w) && Enabled(w, e) && TakesOver(w, e)
    requires !(w.control.ready && e.packet.value.deadlineMs > w.now && HasOutro(w.control))
    ensures
      var d, t, v := e.packet.value.deadlineMs, w.now, Next(w, e);
      var r := if d <= t then 0 else if d - t > 10000 then 10000 else d - t;
      && v.control.stopping && !InputOn(v) && (v.aborted <==> !w.control.ready)
      && !OutputOn(v) && v.control.current.None? && v.control.stop == C.StopCreated(r)
  {
    var cmd := e.packet.value;
    var c := w.control.(seen := C.Remember(w.control.seen, cmd.id));
    RememberInv(w.control, c.seen);
    LeavesControl(c, cmd.deadlineMs, w.now, e.lost);
    ReadyStays(c, cmd.deadlineMs, w.now, e.lost);
    AbortLeaves(Deliver(w, e.packet, e.lost));
  }

  /**
   * human_answered stops the job.  When it is ready, the deadline lies ahead and there is an
   * outro, the caller is no longer heard, a running outro stays as it is and a missed one starts,
   * and the handoff ends when the grace does.  Otherwise both gates go off at once and the stop
   * task has the grace that is left.
   */
  lemma AnsweredEffects(w: World, e: Event)
    requires Inv(w) && Enabled(w, e) && TakesOver(w, e)
    ensures
      var d, t, c, v := e.packet.value.deadlineMs, w.now, w.control, Next(w, e);
      var r := if d <= t then 0 else if d - t > 10000 then 10000 else d - t;
      && v.control.stopping && !InputOn(v) && (v.aborted <==> !c.ready)
      && (if c.ready && d > t && HasOutro(c) then
            && v.control.deadlineMs == t + r - e.lost && v.control.stop == C.HandoffCreated(t + r - e.lost)
            && v.control.current == (if c.current.Some? then c.current else Some(|c.announcements|))
            && (OutputOn(v) <==> c.current.Some? && OutputOn(w))
          else
            !OutputOn(v) && v.control.current.None? && v.control.stop == C.StopCreated(r))
  {
    if w.control.ready && e.packet.value.deadlineMs > w.now && HasOutro(w.control) {
      AnsweredWaits(w, e);
    } else {
      AnsweredLeaves(w, e);
    }
  }

  // ----- how long the handoff waits -----

  ghost predicate Ended(c: C.ControlState, o: nat) { o < |c.announcements| && c.announcements[o].pc.Finished? }

  /** The handoff still waits for outro o, unless that ended, the job closes, or it is time. */
  ghost predicate WaitsAt(c: C.ControlState, now: int, closing: bool, o: nat, d: int) {
    && o < |c.announcements| && c.deadlineMs == d && c.stopping && (c.stopCancelled ==> closing)
    && (|| Ended(c, o) || closing || now >= d
        || (c.current == Some(o)
            && (|| c.stop == C.HandoffCreated(d)
                || (c.stop.HandoffWaiting? && c.stop.on == o && c.stop.when >= d))))
  }

  ghost predicate Waits(w: World, o: nat, d: int) { WaitsAt(w.control, w.now, w.closing.Some?, o, d) }

  lemma AnnounceWaits(c: C.ControlState, i: nat, now: int, raised: bool, closing: bool, o: nat, d: int)
    requires i < |c.announcements| && !c.announcements[i].pc.Finished? && WaitsAt(c, now, closing, o, d)
    ensures WaitsAt(C.ResumeAnnouncement(c, i, now, raised), now, closing, o, d)
  {
    C.ResumeFrame(c, i, now, raised);
    ResumeOne(c, i, now, raised);
  }

  /** The step changes task i alone, and the pointer to it when it ends. */
  ghost predicate One(c: C.ControlState, d: C.ControlState, i: nat) {
    && |d.announcements| == |c.announcements| && d.deadlineMs == c.deadlineMs
    && i < |c.announcements| && d.announcements == c.announcements[i := d.announcements[i]]
    && (d.current == c.current || (c.current == Some(i) && d.announcements[i].pc.Finished?))
  }

  lemma EndOne(c: C.ControlState, i: nat)
    requires i < |c.announcements|
    ensures One(c, C.EndAnnouncement(c, i), i)
  {
  }

  lemma BeginOne(c: C.ControlState, i: nat, now: int, raised: bool)
    requires i < |c.announcements| && c.announcements[i].pc.Created?
    ensures One(c, C.ResumeAnnouncement(c, i, now, raised), i)
  {
    EndOne(c, i);
  }

  lemma ResumeOne(c: C.ControlState, i: nat, now: int, raised: bool)
    requires i < |c.announcements| && !c.announcements[i].pc.Finished?
    ensures One(c, C.ResumeAnnouncement(c, i, now, raised), i)
  {
    EndOne(c, i);
    if c.announcements[i].pc.Created? { BeginOne(c, i, now, raised); }
  }

  lemma SayWaits(c: C.ControlState, i: nat, now: int, closing: bool, o: nat, d: int)
    requires i < |c.announcements| && !c.announcements[i].pc.Finished? && WaitsAt(c, now, closing, o, d)
    ensures WaitsAt(C.FailedSay(c, i), now, closing, o, d)
  {
  }

  lemma StopWaits(c: C.ControlState, now: int, closing: bool, o: nat, d: int)
    requires C.StopMayResume(c, now) && WaitsAt(c, now, closing, o, d)
    ensures WaitsAt(C.ResumeStop(c, now), now, closing, o, d)
  {
  }

  lemma TaskWaits(w: World, e: Event, o: nat, d: int)
    requires Enabled(w, e) && IsTask(e) && Waits(w, o, d)
    ensures Waits(Next(w, e), o, d)
  {
    var closing := w.closing.Some?;
    match e
    case AnnounceStep(i, raised) => AnnounceWaits(w.control, i, w.now, raised, closing, o, d);
    case AnnounceSayFails(i) => SayWaits(w.control, i, w.now, closing, o, d);
    case StopStep => StopWaits(w.control, w.now, closing, o, d);
    case _ =>
  }

  lemma LeavesWaits(w: World, v: World, o: nat, d: int)
    requires Leaves(w, v) && Waits(w, o, d)
    ensures Waits(v, o, d)
  {
  }

  lemma RoomWaits(w: World, e: Event, o: nat, d: int)
    requires Enabled(w, e) && IsRoomEvent(e) && Waits(w, o, d)
    ensures Waits(Next(w, e), o, d)
  {
    RoomControl(w, e);
    assert Next(w, e).now == w.now && Next(w, e).closing == w.closing;
  }

  lemma OthersWait(w: World, e: Event, o: nat, d: int)
    requires Enabled(w, e) && !IsRoomEvent(e) && !IsTask(e) && !e.StartupStep? && Waits(w, o, d)
    ensures Waits(Next(w, e), o, d)
  {
    if e.EntryResumes? { EntryLeaves(w); LeavesWaits(w, EntryNext(w), o, d); }
    else if e.Data? { StoppingIgnores(w, e); }
    else { EndingWaits(w, e, o, d); }
  }

  lemma StoppingIgnores(w: World, e: Event)
    requires Enabled(w, e) && e.Data? && w.control.stopping
    ensures Leaves(w, Next(w, e))
  {
    AbortLeaves(w);
    assert Deliver(w, e.packet, e.lost) == w;
  }

  lemma EndingWaits(w: World, e: Event, o: nat, d: int)
    requires Enabled(w, e) && !IsRoomEvent(e) && !IsTask(e) && !e.StartupStep? && !e.Data? && !e.EntryResumes?
    requires Waits(w, o, d)
    ensures Waits(Next(w, e), o, d)
  {
    AbortLeaves(w);
    CleanupLeaves(w);
  }

  lemma StepWaits(w: World, e: Event, o: nat, d: int)
    requires Inv(w) && Enabled(w, e) && Waits(w, o, d)
    ensures Waits(Next(w, e), o, d)
  {
    NoStartupAfterTakeover(w);
    if IsTask(e) { TaskWaits(w, e, o, d); }
    else if IsRoomEvent(e) { RoomWaits(w, e, o, d); }
    else { OthersWait(w, e, o, d); }
  }

  lemma {:induction false} RunWaits(ws: seq<World>, es: seq<Event>, i: nat, j: nat, o: nat, d: int)
    requires IsRun(ws, es) && i <= j < |ws| && Waits(ws[i], o, d)
    ensures Waits(ws[j], o, d)
    decreases j
  {
    if i < j {
      RunWaits(ws, es, i, j - 1, o, d);
      WaitsNext(ws, es, j - 1, o, d);
    }
  }

  lemma WaitsNext(ws: seq<World>, es: seq<Event>, i: nat, o: nat, d: int)
    requires IsRun(ws, es) && i < |es| && Waits(ws[i], o, d)
    ensures Waits(ws[i + 1], o, d)
  {
    RunKeeps(ws, es, i);
    assert StepAt(ws, es, i);
    StepWaits(ws[i], es[i], o, d);
  }

  /**
   * A takeover at time t that finds a ready job with an outro waits for that outro until its
   * grace has passed, which is the time to its deadline, at most ten seconds, less the
   * millisecond that truncation may drop.  It disconnects earlier only if the outro has ended or
   * the job is closing, and the outro's timer does not cut it short either.
   */
  lemma HandoffWaits(ws: seq<World>, es: seq<Event>, i: nat, j: nat)
    requires IsRun(ws, es) && i < j < |ws| && TakesOver(ws[i], es[i])
    requires ws[i].control.ready && es[i].packet.value.deadlineMs > ws[i].now && HasOutro(ws[i].control)
    ensures
      var d, t, o := es[i].packet.value.deadlineMs, ws[i].now, ws[i + 1].control.current;
      var end := (if d - t > 10000 then t + 10000 else d) - es[i].lost;
      && o == (if ws[i].control.current.Some? then ws[i].control.current else Some(|ws[i].control.announcements|))
      && (ws[j].control.disconnects > 0 ==>
            ws[j].now >= end || ws[j].closing.Some? || Ended(ws[j].control, o.value))
      && (j < |es| && es[j] == AnnounceTimer(o.value) ==> ws[j].now >= end || ws[j].closing.Some?)
  {
    WaitsFrom(ws, es, i);
    var d, o := ws[i + 1].control.deadlineMs, ws[i + 1].control.current.value;
    RunWaits(ws, es, i + 1, j, o, d);
    RunKeeps(ws, es, j);
    if j < |es| { TimerWaits(ws, es, j, o, d); }
  }

  lemma WaitsFrom(ws: seq<World>, es: seq<Event>, i: nat)
    requires IsRun(ws, es) && i < |es| && TakesOver(ws[i], es[i])
    requires ws[i].control.ready && es[i].packet.value.deadlineMs > ws[i].now && HasOutro(ws[i].control)
    ensures
      var d, t, o := es[i].packet.value.deadlineMs, ws[i].now, ws[i + 1].control.current;
      && o == (if ws[i].control.current.Some? then ws[i].control.current else Some(|ws[i].control.announcements|))
      && ws[i + 1].control.deadlineMs == (if d - t > 10000 then t + 10000 else d) - es[i].lost
      && Waits(ws[i + 1], o.value, ws[i + 1].control.deadlineMs)
  {
    RunKeeps(ws, es, i);
    assert StepAt(ws, es, i);
    AnsweredWaits(ws[i], es[i]);
  }

  /** The timer of the outro is never due before the handoff's end. */
  lemma TimerWaits(ws: seq<World>, es: seq<Event>, j: nat, o: nat, d: int)
    requires IsRun(ws, es) && j < |es| && Waits(ws[j], o, d)
    ensures es[j] == AnnounceTimer(o) ==> ws[j].now >= d || ws[j].closing.Some?
  {
    RunKeeps(ws, es, j);
    assert StepAt(ws, es, j);
  }

  // ----- the tasks, written out -----

  /** Task i has ended; if it was the current one, the output is off and both pointers are cleared. */
  ghost predicate EndsTask(c: C.ControlState, d: C.ControlState, i: nat) {
    && i < |c.announcements| && |d.announcements| == |c.announcements| && d.announcements[i].pc.Finished?
    && (forall k :: 0 <= k < |c.announcements| && k != i ==> d.announcements[k] == c.announcements[k])
    && (c.current == Some(i) ==>
          && d.current.None? && d.timeout.None?
          && (c.session.Some? ==> d.session == Some(c.session.value.(output := false))))
    && (c.current != Some(i) ==> d.current == c.current && d.timeout == c.timeout && d.session == c.session)
    && d.deadlineMs == c.deadlineMs && d.stop == c.stop
  }

  lemma EndEnds(c: C.ControlState, i: nat)
    requires i < |c.announcements|
    ensures EndsTask(c, C.EndAnnouncement(c, i), i)
  {
  }

  /**
   * An announcement that begins ends at once when it was cancelled, its deadline has come or the
   * SDK fails; otherwise it awaits the interruption, with its timer at the transfer deadline.
   */
  lemma AnnouncementBegins(c: C.ControlState, i: nat, now: int, raised: bool)
    requires C.Inv(c) && i < |c.announcements| && c.announcements[i].pc.Created?
    ensures
      var d := C.ResumeAnnouncement(c, i, now, raised);
      if c.announcements[i].cancelled || c.deadlineMs <= now || raised then EndsTask(c, d, i)
      else
        var awaiting := C.Announcement(C.AwaitInterrupt, false, C.Armed(c.deadlineMs));
        d == c.(timeout := Some(i), announcements := c.announcements[i := awaiting])
  {
    EndEnds(c, i);
    assert c.announcements[i].cancelled ==> !C.Live(c, i) && c.current != Some(i);
    var t := c.announcements[i];
    if !t.cancelled && c.deadlineMs > now {
      EndEnds(c.(timeout := Some(i),
                 announcements := c.announcements[i := t.(pc := C.AwaitInterrupt, timer := C.Armed(c.deadlineMs))]), i);
    }
  }

  /**
   * After the interruption the output goes on and the outro is said, unless the task was
   * cancelled, the interruption failed or there is nothing to say; after the playout the task ends.
   */
  lemma AnnouncementGoesOn(c: C.ControlState, i: nat, now: int, raised: bool)
    requires i < |c.announcements| && c.session.Some?
    requires c.announcements[i].pc.AwaitInterrupt? || c.announcements[i].pc.AwaitPlayout?
    ensures
      var t, d := c.announcements[i], C.ResumeAnnouncement(c, i, now, raised);
      if t.pc.AwaitInterrupt? && !t.cancelled && !raised && c.transferStatement != "" then
        d == c.(session := Some(c.session.value.(output := true, said := c.session.value.said + [C.Outro])),
                announcements := c.announcements[i := t.(pc := C.AwaitPlayout)])
      else EndsTask(c, d, i)
  {
    EndEnds(c, i);
  }

  /** The announcement timer cancels its own task once it is due. */
  lemma TimerCuts(c: C.ControlState, i: nat, now: int)
    requires i < |c.announcements|
    ensures C.TimerDue(c, i, now) <==>
              var t := c.announcements[i];
              (t.pc.AwaitInterrupt? || t.pc.AwaitPlayout?) && t.timer.Armed? && t.timer.when <= now
    ensures C.FireTimer(c, i)
            == c.(announcements := c.announcements[i := C.Announcement(c.announcements[i].pc, true, C.Expiring)])
  {
  }

  /** The session is silenced and the current announcement cancelled. */
  ghost predicate Quiets(c: C.ControlState, d: C.ControlState) {
    d.current.None? && d.timeout.None? && C.GatesOff(d) && OldTasks(c, d.announcements)
  }

  /**
   * The stop task: a handoff waits for the current announcement until its deadline, then silences
   * the session; the disconnect gets what is left of the budget, but at least a millisecond; and
   * shutdown follows it.
   */
  lemma StopTaskSteps(c: C.ControlState, now: int)
    requires C.Inv(c) && C.StopMayResume(c, now)
    ensures
      var d := C.ResumeStop(c, now);
      match c.stop
      case HandoffCreated(end) =>
        if c.current.Some? then
          d == c.(stop := C.HandoffWaiting(end, c.current.value, if end > now then end else now))
        else Quiets(c, d) && d.stop == C.Disconnecting(if end > now then end else now + 1) && d.disconnects == 1
      case HandoffWaiting(end, _, _) =>
        Quiets(c, d) && d.stop == C.Disconnecting(if end > now then end else now + 1) && d.disconnects == 1
      case StopCreated(r) => d == c.(stop := C.Disconnecting(if r > 1 then now + r else now + 1), disconnects := 1)
      case Disconnecting(_) => d == c.(stop := C.Completed, shutdowns := 1)
      case _ => false
    ensures c.stop.HandoffWaiting? ==>
              c.stopCancelled || c.stop.when <= now || c.announcements[c.stop.on].pc.Finished?
  {
    if c.stop.HandoffWaiting? || (c.stop.HandoffCreated? && c.current.None?) {
      FinishQuiets(c, c.stop.deadlineMs, now);
    }
  }

  lemma FinishQuiets(c: C.ControlState, end: int, now: int)
    requires C.OwnerInv(c)
    ensures
      var d := C.FinishHandoff(c, end, now);
      && Quiets(c, d) && d.stop == C.Disconnecting(if end > now then end else now + 1)
      && d.disconnects == c.disconnects + 1
  {
  }
}
