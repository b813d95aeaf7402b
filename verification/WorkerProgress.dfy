/**
 * A prompt run is never stuck: due work is always possible, and it runs out, so the clock of the
 * bounded handoff can always move on.
 */
module WorkerProgress {
  import opened Wrappers
  import opened Worker
  import opened WorkerRuns
  import opened WorkerTiming
  import C = Control

  /** How many resumptions and timers an announcement task has left. */
  function TaskWork(t: C.Announcement): nat {
    match t.pc
    case Created => 6
    case AwaitInterrupt => 4 + (if t.timer.Armed? then 1 else 0)
    case AwaitPlayout => 2 + (if t.timer.Armed? then 1 else 0)
    case Finished => 0
  }

  function TasksWork(ts: seq<C.Announcement>): nat {
    if ts == [] then 0 else TasksWork(ts[..|ts| - 1]) + TaskWork(ts[|ts| - 1])
  }

  function StopWork(stop: C.StopTask): nat {
    match stop
    case HandoffCreated(_) => 3
    case HandoffWaiting(_, _, _) => 2
    case StopCreated(_) => 2
    case Disconnecting(_) => 1
    case _ => 0
  }

  function Work(c: C.ControlState): nat { TasksWork(c.announcements) + StopWork(c.stop) }

  lemma {:induction false} OneTask(ts: seq<C.Announcement>, i: nat, t: C.Announcement)
    requires i < |ts|
    ensures TasksWork(ts[i := t]) + TaskWork(ts[i]) == TasksWork(ts) + TaskWork(t)
  {
    var n := |ts| - 1;
    if i < n {
      OneTask(ts[..n], i, t);
      assert ts[i := t][..n] == ts[..n][i := t];
    } else {
      assert ts[i := t][..n] == ts[..n];
    }
  }

  lemma CancelSame(c: C.ControlState)
    requires C.Inv(c)
    ensures TasksWork(C.CancelAnnouncement(c).announcements) == TasksWork(c.announcements)
  {
    if c.current.Some? {
      var i := c.current.value;
      OneTask(c.announcements, i, c.announcements[i].(cancelled := true));
    }
  }

  /** The step changes task i alone, and gives it less work. */
  ghost predicate Progresses(c: C.ControlState, d: C.ControlState, i: nat)
    requires i < |c.announcements|
  {
    && d.stop == c.stop && |d.announcements| == |c.announcements|
    && d.announcements == c.announcements[i := d.announcements[i]]
    && TaskWork(d.announcements[i]) < TaskWork(c.announcements[i])
  }

  lemma EndProgresses(c: C.ControlState, i: nat)
    requires i < |c.announcements| && !c.announcements[i].pc.Finished?
    ensures Progresses(c, C.EndAnnouncement(c, i), i)
  {
  }

  lemma StartProgresses(c: C.ControlState, i: nat, now: int, raised: bool)
    requires i < |c.announcements| && c.announcements[i].pc.Created?
    ensures Progresses(c, C.ResumeAnnouncement(c, i, now, raised), i)
  {
    EndProgresses(c, i);
  }

  lemma InterruptProgresses(c: C.ControlState, i: nat, now: int, raised: bool)
    requires i < |c.announcements| && c.announcements[i].pc.AwaitInterrupt?
    ensures Progresses(c, C.ResumeAnnouncement(c, i, now, raised), i)
  {
    EndProgresses(c, i);
  }

  lemma ResumeWorks(c: C.ControlState, i: nat, now: int, raised: bool)
    requires i < |c.announcements| && !c.announcements[i].pc.Finished?
    ensures Work(C.ResumeAnnouncement(c, i, now, raised)) < Work(c)
  {
    match c.announcements[i].pc {
      case Created => StartProgresses(c, i, now, raised);
      case AwaitInterrupt => InterruptProgresses(c, i, now, raised);
      case AwaitPlayout => EndProgresses(c, i);
    }
    OneTask(c.announcements, i, C.ResumeAnnouncement(c, i, now, raised).announcements[i]);
  }

  lemma StopWorks(c: C.ControlState, now: int)
    requires C.Inv(c) && C.StopMayResume(c, now)
    ensures Work(C.ResumeStop(c, now)) < Work(c)
  {
    CancelSame(c);
  }

  /** The task step that due work calls for. */
  ghost predicate Works(w: World, e: Event) {
    Enabled(w, e) && (e.AnnounceStep? || e.AnnounceTimer? || e.StopStep?)
  }

  lemma DueWorks(w: World) returns (e: Event)
    requires Inv(w) && Due(w)
    ensures Works(w, e)
  {
    if i: nat :| i < |w.control.announcements| && w.control.announcements[i].pc.Created? {
      e := AnnounceStep(i, false);
    } else if i: nat :| C.TimerDue(w.control, i, w.now) {
      e := AnnounceTimer(i);
    } else {
      e := StopStep;
    }
  }

  /** Every such step leaves less work, also one that an SDK call fails in. */
  lemma WorkShrinks(w: World, e: Event)
    requires Inv(w) && Works(w, e)
    ensures Work(Next(w, e).control) < Work(w.control) && Next(w, e).now == w.now
  {
    match e
    case AnnounceStep(i, raised) => ResumeWorks(w.control, i, w.now, raised);
    case AnnounceTimer(i) =>
      OneTask(w.control.announcements, i, C.FireTimer(w.control, i).announcements[i]);
    case StopStep => StopWorks(w.control, w.now);
  }

  lemma Append(ws: seq<World>, es: seq<Event>, e: Event)
    requires IsPromptRun(ws, es) && Enabled(ws[|es|], e) && (e.Tick? ==> !Due(ws[|es|]))
    ensures IsPromptRun(ws + [Next(ws[|es|], e)], es + [e])
  {
    var ws2, es2 := ws + [Next(ws[|es|], e)], es + [e];
    forall i: nat {:trigger StepAt(ws2, es2, i)} | i < |es2| ensures StepAt(ws2, es2, i) {
      if i < |es| { assert StepAt(ws, es, i); }
    }
  }

  /** Every prompt run can go on to the next millisecond. */
  lemma {:induction false} ClockMovesOn(ws: seq<World>, es: seq<Event>) returns (ws2: seq<World>, es2: seq<Event>)
    requires IsPromptRun(ws, es)
    ensures IsPromptRun(ws2, es2) && ws <= ws2 && es <= es2
    ensures ws2[|es2|].now == ws[|es|].now + 1
    decreases Work(ws[|es|].control)
  {
    var w := ws[|es|];
    RunKeeps(ws, es, |es|);
    if Due(w) {
      var e := DueWorks(w);
      WorkShrinks(w, e);
      Append(ws, es, e);
      ws2, es2 := ClockMovesOn(ws + [Next(w, e)], es + [e]);
    } else {
      Append(ws, es, Tick);
      ws2, es2 := ws + [Next(w, Tick)], es + [Tick];
    }
  }
}
