/**
 * The ControlHandler of src/aida_agent/control.py, updating its fields in place.  Every method
 * is one stretch of code between two awaits, and its contract is the step of the same name in
 * module Control.
 */
module Handler {
  import opened Wrappers
  import C = Control

  /** The SDK session as this worker uses it. */
  class Session {
    var input: bool
    var output: bool
    var said: seq<C.Speech>

    constructor ()
      ensures State() == C.SessionState(false, false, [])
    {
      input, output, said := false, false, [];
    }

    function State(): C.SessionState
      reads this
    {
      C.SessionState(input, output, said)
    }
  }

  class ControlHandler {
    var session: Session?
    var transferStatement: string
    var failedStatement: string
    var stopping: bool
    var transferring: bool
    var deadlineMs: int
    var ready: bool
    var seen: seq<string>
    var announcements: seq<C.Announcement>
    var announcementTask: Option<nat>
    var announcementTimeout: Option<nat>
    var stopTask: C.StopTask
    var stopCancelled: bool
    var stopsCreated: nat
    var disconnects: nat
    var shutdowns: nat

    constructor ()
      ensures State() == C.ControlState(None, "", "", false, false, 0, false, [], [], None, None,
                                        C.NoStop, false, 0, 0, 0)
    {
      session, transferStatement, failedStatement := null, "", "";
      stopping, transferring, deadlineMs, ready := false, false, 0, false;
      seen, announcements, announcementTask, announcementTimeout := [], [], None, None;
      stopTask, stopCancelled, stopsCreated, disconnects, shutdowns := C.NoStop, false, 0, 0, 0;
    }

    function State(): C.ControlState
      reads this, session
    {
      C.ControlState(if session == null then None else Some(session.State()),
                     transferStatement, failedStatement, stopping, transferring, deadlineMs, ready, seen,
                     announcements, announcementTask, announcementTimeout, stopTask, stopCancelled,
                     stopsCreated, disconnects, shutdowns)
    }

    method CancelAnnouncement()
      modifies this
      ensures session == old(session) && State() == C.CancelAnnouncement(old(State()))
    {
      if announcementTask.Some? {
        var i := announcementTask.value;
        if i < |announcements| {
          announcements := announcements[i := announcements[i].(cancelled := true)];
        }
        announcementTask := None;
        announcementTimeout := None;
      }
    }

    method StartAnnouncement(now: int)
      modifies this, session
      ensures session == old(session) && State() == C.StartAnnouncement(old(State()), now)
    {
      if !ready || session == null {
        return;
      }
      CancelAnnouncement();
      session.input := false;
      session.output := false;
      deadlineMs := C.Min(deadlineMs, now + C.HANDOFF_LIMIT_MS);
      announcements := announcements + [C.Announcement(C.Created, false, C.Unstarted)];
      announcementTask := Some(|announcements| - 1);
    }

    method Silence()
      modifies session
      ensures session == old(session) && State() == C.Silence(old(State()))
    {
      if session != null {
        session.input := false;
        session.output := false;
      }
    }

    /** Extends the timer of the running announcement, unless it has expired. */
    method Reschedule(when: int)
      modifies this`announcements
      ensures State() == C.Reschedule(old(State()), when)
    {
      if announcementTimeout.Some? && announcementTimeout.value < |announcements| {
        var i := announcementTimeout.value;
        if !announcements[i].timer.Expiring? {
          announcements := announcements[i := announcements[i].(timer := C.Armed(when))];
        }
      }
    }

    /** human_answered: stop ordinary turns, and start or extend the outro. */
    method Prepare(commandDeadline: int, now: int, lost: nat)
      modifies this, session
      ensures session == old(session) && State() == C.Prepare(old(State()), commandDeadline, now, lost)
    {
      stopping := true;
      var remaining := C.Max(0, C.Min(C.HANDOFF_LIMIT_MS, commandDeadline - now));
      if ready && session != null && remaining > 0 {
        deadlineMs := now + remaining - lost;
        assert State() == old(State()).(stopping := true, deadlineMs := deadlineMs);
        if !transferring && transferStatement != "" {
          transferring := true;
          assert State() == old(State()).(stopping := true, deadlineMs := deadlineMs, transferring := true);
          StartAnnouncement(now);
        } else {
          Reschedule(now + remaining);
        }
      }
    }

    /** human_answered: create the stop task. */
    method Leave(remaining: int)
      modifies this, session
      ensures session == old(session) && State() == C.Leave(old(State()), remaining)
    {
      if ready && remaining > 0 && announcementTask.Some? {
        if session != null {
          session.input := false;
        }
        stopTask := C.HandoffCreated(deadlineMs);
      } else {
        CancelAnnouncement();
        Silence();
        stopTask := C.StopCreated(remaining);
      }
      stopsCreated := stopsCreated + 1;
    }

    /** The branch of receive for transfer_failed. */
    method Failed(commandDeadline: int, now: int)
      modifies this, session
      ensures session == old(session) && State() == C.Failed(old(State()), commandDeadline, now)
    {
      if commandDeadline >= now {
        transferring := false;
        CancelAnnouncement();
        if ready && session != null {
          session.output := true;
          session.input := true;
          if failedStatement != "" {
            session.said := session.said + [C.FailureNotice];
          }
        }
      }
    }

    method Receive(packet: Option<C.Command>, now: int, lost: nat) returns (accepted: bool)
      modifies this, session
      ensures session == old(session)
      ensures accepted == C.Accepts(old(State()), packet)
      ensures State() == C.Receive(old(State()), packet, now, lost)
    {
      if packet.None? {
        return false;
      }
      var command := packet.value;
      if command.id in seen || stopping {
        return false;
      }
      seen := seen + [command.id];
      if |seen| > C.DEDUP_LIMIT {
        seen := seen[1..];
      }
      match command.action {
        case HumanAnswered =>
          Prepare(command.deadlineMs, now, lost);
          Leave(C.Grace(command.deadlineMs, now));
        case TransferRequested =>
          if command.deadlineMs > now {
            transferring := true;
            deadlineMs := command.deadlineMs;
            StartAnnouncement(now);
          }
        case TransferFailed => Failed(command.deadlineMs, now);
      }
      return true;
    }

    method Activate(now: int) returns (enable: bool)
      modifies this, session
      ensures session == old(session)
      ensures State() == C.Activate(old(State()), now) && enable == C.ActivateResult(old(State()))
    {
      ready := true;
      if transferring {
        StartAnnouncement(now);
        return false;
      }
      return !stopping;
    }

    /** The finally block of the coroutine _announce run by task i. */
    method EndAnnouncement(i: nat)
      requires i < |announcements|
      modifies this, session
      ensures session == old(session) && State() == C.EndAnnouncement(old(State()), i)
    {
      announcements := announcements[i := announcements[i].(pc := C.Finished)];
      if announcementTask == Some(i) {
        if session != null {
          session.output := false;
        }
        announcementTask := None;
        announcementTimeout := None;
      }
    }

    /** Resumes _announce in task i; raised is an exception of the SDK call it awaited. */
    method ResumeAnnouncement(i: nat, now: int, raised: bool)
      requires i < |announcements| && !announcements[i].pc.Finished?
      modifies this, session
      ensures session == old(session) && State() == C.ResumeAnnouncement(old(State()), i, now, raised)
    {
      var task := announcements[i];
      match task.pc {
        case Created =>
          if task.cancelled {
            announcements := announcements[i := task.(pc := C.Finished)];
          } else if deadlineMs - now <= 0 {
            EndAnnouncement(i);
          } else {
            announcementTimeout := Some(i);
            announcements := announcements[i := task.(pc := C.AwaitInterrupt, timer := C.Armed(deadlineMs))];
            if raised {
              EndAnnouncement(i);
            }
          }
        case AwaitInterrupt =>
          if task.cancelled || raised || transferStatement == "" {
            EndAnnouncement(i);
          } else {
            if session != null {
              session.output := true;
              session.said := session.said + [C.Outro];
            }
            announcements := announcements[i := task.(pc := C.AwaitPlayout)];
          }
        case AwaitPlayout => EndAnnouncement(i);
      }
    }

    method FinishHandoff(handoffDeadline: int, now: int)
      modifies this, session
      ensures session == old(session) && State() == C.FinishHandoff(old(State()), handoffDeadline, now)
    {
      CancelAnnouncement();
      Silence();
      stopCancelled := false;
      disconnects := disconnects + 1;
      stopTask := C.Disconnecting(now + C.Max(1, C.Max(0, handoffDeadline - now)));
    }

    /** Resumes _finish_handoff or _stop. */
    method ResumeStop(now: int)
      requires C.StopMayResume(State(), now)
      modifies this, session
      ensures session == old(session) && State() == C.ResumeStop(old(State()), now)
    {
      match stopTask {
        case HandoffCreated(d) =>
          if announcementTask.Some? {
            stopTask := C.HandoffWaiting(d, announcementTask.value, now + C.Max(0, d - now));
          } else {
            FinishHandoff(d, now);
          }
        case HandoffWaiting(d, on, when) => FinishHandoff(d, now);
        case StopCreated(remaining) =>
          disconnects := disconnects + 1;
          stopTask := C.Disconnecting(now + C.Max(1, remaining));
        case Disconnecting(when) =>
          shutdowns := shutdowns + 1;
          stopTask := C.Completed;
      }
    }

    /** The interrupt returned but session.say raised in the same stretch of code. */
    method FailedSay(i: nat)
      requires i < |announcements| && !announcements[i].pc.Finished?
      modifies this, session
      ensures session == old(session) && State() == C.FailedSay(old(State()), i)
    {
      if session != null {
        session.output := true;
        session.said := session.said + [C.Outro];
      }
      EndAnnouncement(i);
    }

    /** asyncio.Timeout fires in task i. */
    method FireTimer(i: nat)
      requires i < |announcements|
      modifies this
      ensures session == old(session) && State() == C.FireTimer(old(State()), i)
    {
      announcements := announcements[i := announcements[i].(timer := C.Expiring, cancelled := true)];
    }

    /** close() is cancelled while it awaits the stop task. */
    method CancelStop()
      modifies this
      ensures session == old(session) && State() == C.CancelStop(old(State()))
    {
      stopCancelled := true;
    }
  }
}
