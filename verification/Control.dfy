/**
 * The takeover commands of src/aida_agent/control.py.
 *
 * Asyncio is cooperative: the code between two awaits is one atomic step.  A coroutine is
 * therefore a record with a program counter and a pending cancellation, and a step is a
 * function from one ControlState to the next.  The class ControlHandler of module Handler
 * updates the same state in place; each of its methods is proved to take the step of that name.
 */
module Control {
  import opened Wrappers

  const DEDUP_LIMIT: nat := 256
  const HANDOFF_LIMIT_MS: int := 10000

  datatype Action = TransferRequested | HumanAnswered | TransferFailed

  /** A packet that passed ControlCommand.parse. */
  datatype Command = Command(id: string, action: Action, deadlineMs: int)

  datatype Speech = Outro | FailureNotice | Greeting

  /** What this worker writes of the SDK session: both audio gates, and every call of say. */
  datatype SessionState = SessionState(input: bool, output: bool, said: seq<Speech>)

  /** asyncio.Timeout: not entered yet, entered with a due time, or fired and being delivered. */
  datatype Timer = Unstarted | Armed(when: int) | Expiring

  datatype AnnouncePc = Created | AwaitInterrupt | AwaitPlayout | Finished

  /** One task running _announce; cancelled is a cancellation its next resumption will raise. */
  datatype Announcement = Announcement(pc: AnnouncePc, cancelled: bool, timer: Timer)

  /** The task running _finish_handoff or _stop. */
  datatype StopTask =
    | NoStop
    | HandoffCreated(deadlineMs: int)
    | HandoffWaiting(deadlineMs: int, on: nat, when: int)
    | StopCreated(remaining: int)
    | Disconnecting(when: int)
    | Completed

  datatype ControlState = ControlState(
    session: Option<SessionState>,
    transferStatement: string,
    failedStatement: string,
    stopping: bool,
    transferring: bool,
    deadlineMs: int,
    ready: bool,
    seen: seq<string>,
    announcements: seq<Announcement>,  // every task ever created, by number
    current: Option<nat>,              // _announcement_task
    timeout: Option<nat>,              // _announcement_timeout, named by the task that owns it
    stop: StopTask,
    stopCancelled: bool,
    stopsCreated: nat,
    disconnects: nat,
    shutdowns: nat
  )

  function Max(a: int, b: int): int { if a < b then b else a }
  function Min(a: int, b: int): int { if a < b then a else b }

  // ----- steps that contain no await -----

  function SetGates(c: ControlState, input: bool, output: bool): ControlState {
    match c.session
    case None => c
    case Some(s) => c.(session := Some(s.(input := input, output := output)))
  }

  function SetOutput(c: ControlState, output: bool): ControlState {
    match c.session
    case None => c
    case Some(s) => c.(session := Some(s.(output := output)))
  }

  function SetInput(c: ControlState, input: bool): ControlState {
    match c.session
    case None => c
    case Some(s) => c.(session := Some(s.(input := input)))
  }

  function Say(c: ControlState, speech: Speech): ControlState {
    match c.session
    case None => c
    case Some(s) => c.(session := Some(s.(said := s.said + [speech])))
  }

  function CancelAnnouncement(c: ControlState): ControlState {
    match c.current
    case None => c
    case Some(i) =>
      c.(announcements := if i < |c.announcements|
                          then c.announcements[i := c.announcements[i].(cancelled := true)]
                          else c.announcements,
         current := None, timeout := None)
  }

  function StartAnnouncement(c: ControlState, now: int): ControlState {
    if !c.ready || c.session.None? then c
    else
      var d := SetGates(CancelAnnouncement(c), false, false);
      d.(deadlineMs := Min(c.deadlineMs, now + HANDOFF_LIMIT_MS),
         announcements := d.announcements + [Announcement(Created, false, Unstarted)],
         current := Some(|d.announcements|))
  }

  function Silence(c: ControlState): ControlState { SetGates(c, false, false) }

  function Remember(seen: seq<string>, id: string): seq<string> {
    var s := seen + [id];
    if |s| > DEDUP_LIMIT then s[1..] else s
  }

  /** Milliseconds of grace a human_answered command leaves, capped at ten seconds. */
  function Grace(deadlineMs: int, now: int): int {
    Max(0, Min(HANDOFF_LIMIT_MS, deadlineMs - now))
  }

  /** The in-place extension of a running announcement's timer. */
  function Reschedule(c: ControlState, when: int): ControlState {
    if c.timeout.Some? && c.timeout.value < |c.announcements|
       && !c.announcements[c.timeout.value].timer.Expiring? then
      var i := c.timeout.value;
      c.(announcements := c.announcements[i := c.announcements[i].(timer := Armed(when))])
    else c
  }

  /**
   * human_answered up to the choice of how to leave: stopping, and the outro started or its
   * timer extended.  lost is what truncating remaining * 1000 to an integer may drop: nothing
   * or one millisecond.
   */
  function Prepare(c: ControlState, deadlineMs: int, now: int, lost: nat): ControlState {
    var r := Grace(deadlineMs, now);
    var c0 := c.(stopping := true);
    if c0.ready && c0.session.Some? && r > 0 then
      var d := c0.(deadlineMs := now + r - lost);
      if !d.transferring && d.transferStatement != "" then
        StartAnnouncement(d.(transferring := true), now)
      else Reschedule(d, now + r)
    else c0
  }

  /** Hand off to a running outro, or silence at once. */
  function Leave(c: ControlState, r: int): ControlState {
    if c.ready && r > 0 && c.current.Some? then
      SetInput(c, false).(stop := HandoffCreated(c.deadlineMs), stopsCreated := c.stopsCreated + 1)
    else
      Silence(CancelAnnouncement(c)).(stop := StopCreated(r), stopsCreated := c.stopsCreated + 1)
  }

  function Answered(c: ControlState, deadlineMs: int, now: int, lost: nat): ControlState {
    Leave(Prepare(c, deadlineMs, now, lost), Grace(deadlineMs, now))
  }

  function Requested(c: ControlState, deadlineMs: int, now: int): ControlState {
    if deadlineMs > now then
      StartAnnouncement(c.(transferring := true, deadlineMs := deadlineMs), now)
    else c
  }

  function Failed(c: ControlState, deadlineMs: int, now: int): ControlState {
    if deadlineMs >= now then
      var d := CancelAnnouncement(c.(transferring := false));
      if d.ready && d.session.Some? then
        var e := SetGates(d, true, true);
        if e.failedStatement != "" then Say(e, FailureNotice) else e
      else d
    else c
  }

  function Accepts(c: ControlState, packet: Option<Command>): bool {
    packet.Some? && packet.value.id !in c.seen && !c.stopping
  }

  /** receive: packet is None when ControlCommand.parse rejects it. */
  function Receive(c: ControlState, packet: Option<Command>, now: int, lost: nat): ControlState {
    if !Accepts(c, packet) then c
    else
      var cmd := packet.value;
      var d := c.(seen := Remember(c.seen, cmd.id));
      match cmd.action
      case HumanAnswered => Answered(d, cmd.deadlineMs, now, lost)
      case TransferRequested => Requested(d, cmd.deadlineMs, now)
      case TransferFailed => Failed(d, cmd.deadlineMs, now)
  }

  /** The truncation loss is below one millisecond and never makes the grace negative. */
  predicate LossOk(packet: Option<Command>, now: int, lost: nat) {
    lost <= 1 && (packet.Some? ==> lost <= Grace(packet.value.deadlineMs, now))
  }

  function Activate(c: ControlState, now: int): ControlState {
    var d := c.(ready := true);
    if d.transferring then StartAnnouncement(d, now) else d
  }

  predicate ActivateResult(c: ControlState) { !c.transferring && !c.stopping }

  // ----- resumptions of the tasks -----

  /** The finally block of _announce, run by task i. */
  function EndAnnouncement(c: ControlState, i: nat): ControlState
    requires i < |c.announcements|
  {
    var d := c.(announcements := c.announcements[i := c.announcements[i].(pc := Finished)]);
    if d.current == Some(i) then SetOutput(d, false).(current := None, timeout := None) else d
  }

  /** Runs task i from its await to the next one; raised is a provider exception. */
  function ResumeAnnouncement(c: ControlState, i: nat, now: int, raised: bool): ControlState
    requires i < |c.announcements| && !c.announcements[i].pc.Finished?
  {
    var t := c.announcements[i];
    match t.pc
    case Created =>
      if t.cancelled then
        c.(announcements := c.announcements[i := t.(pc := Finished)])
      else if c.deadlineMs - now <= 0 then EndAnnouncement(c, i)
      else
        var d := c.(timeout := Some(i),
                    announcements := c.announcements[i := t.(pc := AwaitInterrupt, timer := Armed(c.deadlineMs))]);
        if raised then EndAnnouncement(d, i) else d
    case AwaitInterrupt =>
      if t.cancelled || raised || c.transferStatement == "" then EndAnnouncement(c, i)
      else
        Say(SetOutput(c, true), Outro).(
          announcements := c.announcements[i := t.(pc := AwaitPlayout)])
    case AwaitPlayout => EndAnnouncement(c, i)
    case Finished => c
  }

  /** The interrupt completed but session.say itself raised: the gate opens and closes in one step. */
  function FailedSay(c: ControlState, i: nat): ControlState
    requires i < |c.announcements| && !c.announcements[i].pc.Finished?
  {
    EndAnnouncement(Say(SetOutput(c, true), Outro), i)
  }

  predicate SayMayFail(c: ControlState, i: nat) {
    i < |c.announcements| && c.announcements[i].pc.AwaitInterrupt? && !c.announcements[i].cancelled
    && c.transferStatement != ""
  }

  predicate TimerDue(c: ControlState, i: nat, now: int) {
    i < |c.announcements| && (c.announcements[i].pc.AwaitInterrupt? || c.announcements[i].pc.AwaitPlayout?)
    && c.announcements[i].timer.Armed? && c.announcements[i].timer.when <= now
  }

  /** asyncio.Timeout fires: the owning task is cancelled and the timer is expiring. */
  function FireTimer(c: ControlState, i: nat): ControlState
    requires i < |c.announcements|
  {
    c.(announcements := c.announcements[i := c.announcements[i].(timer := Expiring, cancelled := true)])
  }

  /** The finally block of _finish_handoff and the first part of _stop. */
  function FinishHandoff(c: ControlState, deadlineMs: int, now: int): ControlState {
    Silence(CancelAnnouncement(c)).(
      stop := Disconnecting(now + Max(1, Max(0, deadlineMs - now))),
      stopCancelled := false, disconnects := c.disconnects + 1)
  }

  predicate StopMayResume(c: ControlState, now: int) {
    match c.stop
    case HandoffCreated(_) => true
    case StopCreated(_) => true
    case HandoffWaiting(_, on, when) =>
      c.stopCancelled || when <= now || (on < |c.announcements| && c.announcements[on].pc.Finished?)
    case Disconnecting(_) => true
    case _ => false
  }

  function ResumeStop(c: ControlState, now: int): ControlState
    requires StopMayResume(c, now)
  {
    match c.stop
    case HandoffCreated(d) =>
      if c.current.Some? then
        c.(stop := HandoffWaiting(d, c.current.value, now + Max(0, d - now)))
      else FinishHandoff(c, d, now)
    case HandoffWaiting(d, _, _) => FinishHandoff(c, d, now)
    case StopCreated(r) =>
      c.(stop := Disconnecting(now + Max(1, r)), disconnects := c.disconnects + 1)
    case Disconnecting(_) => c.(stop := Completed, shutdowns := c.shutdowns + 1)
    case _ => c
  }

  /**
   * close() gives up waiting for the stop task and so cancels it.  The task has taken its first
   * step by then: it was scheduled before close() began, and the two seconds run out later.
   */
  predicate StopMayCancel(c: ControlState) { c.stop.HandoffWaiting? || c.stop.Disconnecting? }

  function CancelStop(c: ControlState): ControlState { c.(stopCancelled := true) }

  // ----- what every step keeps -----

  ghost predicate Live(c: ControlState, i: nat) {
    i < |c.announcements| && !c.announcements[i].pc.Finished? && !c.announcements[i].cancelled
  }

  /** The caller is being screened: no transfer, no takeover. */
  ghost predicate Screening(c: ControlState) {
    c.ready && c.session.Some? && !c.transferring && !c.stopping
  }

  /** The handler's own announcement is in its playout phase. */
  ghost predicate Playing(c: ControlState) {
    c.current.Some? && c.current.value < |c.announcements|
    && c.announcements[c.current.value].pc.AwaitPlayout?
  }

  /** The handler points at the only task that may still act, and at that task's own timer. */
  ghost predicate OwnerInv(c: ControlState) {
    && (c.current.Some? ==>
          && c.current.value < |c.announcements|
          && !c.announcements[c.current.value].pc.Finished?
          && c.transferring && c.session.Some?)
    && (forall i: nat | i < |c.announcements| :: Live(c, i) ==> c.current == Some(i))
    && (c.timeout.Some? <==> c.current.Some? && !c.announcements[c.current.value].pc.Created?)
    && (c.timeout.Some? ==> c.timeout == c.current)
  }

  /** A timer is due at the transfer deadline, up to the millisecond a takeover's truncation drops. */
  ghost predicate TimerInv(c: ControlState) {
    c.current.Some? && c.current.value < |c.announcements| ==>
      var t := c.announcements[c.current.value];
      && (t.pc.Created? <==> t.timer.Unstarted?)
      && (t.cancelled <==> t.timer.Expiring?)
      && (t.timer.Armed? ==> c.deadlineMs <= t.timer.when <= c.deadlineMs + 1)
      && (t.timer.Armed? && !c.stopping ==> t.timer.when == c.deadlineMs)
  }

  ghost predicate Silenced(c: ControlState) {
    c.stop.StopCreated? || c.stop.Disconnecting? || c.stop.Completed?
  }

  ghost predicate GatesOff(c: ControlState) {
    c.session.Some? ==> !c.session.value.input && !c.session.value.output
  }

  /** One stop task for one takeover, one disconnect and one shutdown for one stop task. */
  ghost predicate StopInv(c: ControlState) {
    && (c.stopping <==> !c.stop.NoStop?)
    && c.stopsCreated == (if c.stop.NoStop? then 0 else 1)
    && c.disconnects == (if c.stop.Disconnecting? || c.stop.Completed? then 1 else 0)
    && c.shutdowns == (if c.stop.Completed? then 1 else 0)
    && (c.stopCancelled ==> c.stop.HandoffWaiting? || c.stop.Disconnecting? || c.stop.Completed?)
    && (Silenced(c) ==> c.current.None? && GatesOff(c))
    && (c.stop.HandoffCreated? ==> c.stop.deadlineMs == c.deadlineMs)
    && (c.stop.HandoffWaiting? ==>
          c.stop.deadlineMs == c.deadlineMs && c.stop.on < |c.announcements|
          && (c.current.Some? ==> c.current.value == c.stop.on))
  }

  ghost predicate Inv(c: ControlState) {
    OwnerInv(c) && TimerInv(c) && StopInv(c)
  }

  /** Both gates, exactly.  muted: the worker has aborted or cleaned up. */
  ghost predicate GateInv(c: ControlState, muted: bool) {
    c.session.Some? ==>
      && c.session.value.input == (Screening(c) && !muted)
      && (!muted ==> c.session.value.output == (Screening(c) || Playing(c)))
  }

  lemma CancelKeeps(c: ControlState)
    requires OwnerInv(c)
    ensures OwnerInv(CancelAnnouncement(c))
    ensures CancelAnnouncement(c).current.None?
    ensures forall i: nat :: !Live(CancelAnnouncement(c), i)
  {
    var d := CancelAnnouncement(c);
    forall i: nat ensures !Live(d, i) {
      if i < |c.announcements| && Live(c, i) { assert c.current == Some(i); }
    }
  }

  lemma StartKeeps(c: ControlState, now: int)
    requires OwnerInv(c) && TimerInv(c) && c.transferring
    requires c.current.Some? ==> c.ready
    ensures OwnerInv(StartAnnouncement(c, now)) && TimerInv(StartAnnouncement(c, now))
    ensures c.ready && c.session.Some? ==> GatesOff(StartAnnouncement(c, now)) && !Playing(StartAnnouncement(c, now))
  {
    if c.ready && c.session.Some? {
      CancelKeeps(c);
      var d := SetGates(CancelAnnouncement(c), false, false);
      var e := StartAnnouncement(c, now);
      forall i: nat | i < |e.announcements| && Live(e, i) ensures e.current == Some(i) {
        if i < |d.announcements| { assert Live(CancelAnnouncement(c), i); }
      }
    }
  }

  /** Starting replaces the pointers, so the deadline set just before it does not matter to them. */
  lemma StartIgnoresDeadline(c: ControlState, deadlineMs: int, now: int)
    requires OwnerInv(c) && TimerInv(c) && c.transferring && c.ready && c.session.Some?
    ensures OwnerInv(StartAnnouncement(c.(deadlineMs := deadlineMs), now))
    ensures TimerInv(StartAnnouncement(c.(deadlineMs := deadlineMs), now))
  {
    StartKeeps(c, now);
    var e := StartAnnouncement(c, now);
    var f := StartAnnouncement(c.(deadlineMs := deadlineMs), now);
    assert f == e.(deadlineMs := f.deadlineMs);
    assert forall i: nat :: Live(f, i) <==> Live(e, i);
  }

  lemma RequestedKeeps(c: ControlState, deadlineMs: int, now: int)
    requires Inv(c) && GateInv(c, false) && !c.stopping
    requires c.current.Some? ==> c.ready
    ensures Inv(Requested(c, deadlineMs, now)) && GateInv(Requested(c, deadlineMs, now), false)
    ensures Requested(c, deadlineMs, now).current.Some? ==> c.ready
  {
    var d := Requested(c, deadlineMs, now);
    if deadlineMs > now && c.ready && c.session.Some? {
      var f := c.(transferring := true);
      assert forall i: nat :: Live(f, i) <==> Live(c, i);
      StartIgnoresDeadline(f, deadlineMs, now);
    } else {
      assert d.announcements == c.announcements;
      assert forall i: nat :: Live(d, i) <==> Live(c, i);
    }
  }

  lemma FailedKeeps(c: ControlState, deadlineMs: int, now: int)
    requires Inv(c) && GateInv(c, false) && !c.stopping
    requires c.current.Some? ==> c.ready
    ensures Inv(Failed(c, deadlineMs, now)) && GateInv(Failed(c, deadlineMs, now), false)
    ensures Failed(c, deadlineMs, now).current.Some? ==> c.ready
  {
    CancelKeeps(c);
    var e := CancelAnnouncement(c);
    var d := Failed(c, deadlineMs, now);
    if deadlineMs >= now {
      assert d.announcements == e.announcements && d.current.None? && d.timeout.None?;
      assert forall i: nat :: Live(d, i) <==> Live(e, i);
    }
  }

  /** A takeover that starts the missed outro. */
  lemma AnsweredStartKeeps(c: ControlState, deadlineMs: int, now: int)
    requires Inv(c) && GateInv(c, false) && !c.stopping && c.ready && c.session.Some? && !c.transferring
    ensures
      var d := StartAnnouncement(c.(stopping := true, deadlineMs := deadlineMs, transferring := true), now);
      OwnerInv(d) && TimerInv(d) && GatesOff(d) && !Playing(d) && d.current.Some?
  {
    var f := c.(stopping := true, transferring := true);
    assert forall i: nat :: Live(f, i) <==> Live(c, i);
    StartIgnoresDeadline(f, deadlineMs, now);
  }

  /** A takeover that extends a running outro. */
  lemma AnsweredExtendKeeps(c: ControlState, deadlineMs: int, when: int)
    requires Inv(c) && !c.stopping && deadlineMs <= when <= deadlineMs + 1
    ensures
      var d := Reschedule(c.(stopping := true, deadlineMs := deadlineMs), when);
      OwnerInv(d) && TimerInv(d) && d.session == c.session && d.current == c.current && (Playing(d) <==> Playing(c))
  {
    var d := Reschedule(c.(stopping := true, deadlineMs := deadlineMs), when);
    assert forall i: nat :: Live(d, i) <==> Live(c, i);
  }

  lemma PrepareKeeps(c: ControlState, deadlineMs: int, now: int, lost: nat)
    requires Inv(c) && GateInv(c, false) && !c.stopping
    requires lost <= 1 && lost <= Grace(deadlineMs, now)
    requires c.current.Some? ==> c.ready
    ensures
      var d := Prepare(c, deadlineMs, now, lost);
      && OwnerInv(d) && TimerInv(d) && d.stopping && d.ready == c.ready
      && (d.current.Some? ==> c.ready)
      && d.stop == c.stop && d.stopCancelled == c.stopCancelled && d.stopsCreated == c.stopsCreated
      && d.disconnects == c.disconnects && d.shutdowns == c.shutdowns
      && (d.session.Some? && d.current.Some? ==> d.session.value.output == Playing(d))
  {
    var r := Grace(deadlineMs, now);
    if c.ready && c.session.Some? && r > 0 {
      if !c.transferring && c.transferStatement != "" {
        AnsweredStartKeeps(c, now + r - lost, now);
      } else {
        AnsweredExtendKeeps(c, now + r - lost, now + r);
      }
    } else {
      var e := c.(stopping := true);
      assert forall i: nat :: Live(e, i) <==> Live(c, i);
    }
  }

  lemma LeaveKeeps(c: ControlState, r: int)
    requires OwnerInv(c) && TimerInv(c) && c.stopping && c.stop.NoStop? && !c.stopCancelled
    requires c.stopsCreated == 0 && c.disconnects == 0 && c.shutdowns == 0
    requires c.session.Some? && c.current.Some? ==> c.session.value.output == Playing(c)
    ensures Inv(Leave(c, r)) && GateInv(Leave(c, r), false)
    ensures Leave(c, r).current.Some? ==> c.current.Some?
  {
    CancelKeeps(c);
    var e := CancelAnnouncement(c);
    var d := Leave(c, r);
    if c.ready && r > 0 && c.current.Some? {
      assert forall i: nat :: Live(d, i) <==> Live(c, i);
    } else {
      assert forall i: nat :: Live(d, i) <==> Live(e, i);
    }
  }

  lemma AnsweredKeeps(c: ControlState, deadlineMs: int, now: int, lost: nat)
    requires Inv(c) && GateInv(c, false) && !c.stopping
    requires lost <= 1 && lost <= Grace(deadlineMs, now)
    requires c.current.Some? ==> c.ready
    ensures Inv(Answered(c, deadlineMs, now, lost)) && GateInv(Answered(c, deadlineMs, now, lost), false)
    ensures Answered(c, deadlineMs, now, lost).current.Some? ==> c.ready
  {
    PrepareKeeps(c, deadlineMs, now, lost);
    LeaveKeeps(Prepare(c, deadlineMs, now, lost), Grace(deadlineMs, now));
  }

  /** Commands never run while the worker is muted, and announcements exist only once ready. */
  lemma ReceiveKeeps(c: ControlState, packet: Option<Command>, now: int, lost: nat)
    requires Inv(c) && GateInv(c, false) && LossOk(packet, now, lost)
    requires c.current.Some? ==> c.ready
    ensures Inv(Receive(c, packet, now, lost)) && GateInv(Receive(c, packet, now, lost), false)
    ensures Receive(c, packet, now, lost).current.Some? ==> c.ready
  {
    if Accepts(c, packet) {
      var cmd := packet.value;
      var d := c.(seen := Remember(c.seen, cmd.id));
      assert Inv(d) by { assert forall i: nat :: Live(d, i) <==> Live(c, i); }
      match cmd.action
      case HumanAnswered => AnsweredKeeps(d, cmd.deadlineMs, now, lost);
      case TransferRequested => RequestedKeeps(d, cmd.deadlineMs, now);
      case TransferFailed => FailedKeeps(d, cmd.deadlineMs, now);
    }
  }

  lemma EndKeeps(c: ControlState, i: nat)
    requires Inv(c) && i < |c.announcements| && !c.announcements[i].pc.Finished?
    ensures Inv(EndAnnouncement(c, i))
    ensures forall muted :: GateInv(c, muted) ==> GateInv(EndAnnouncement(c, i), muted)
  {
    var d := EndAnnouncement(c, i);
    assert forall j: nat :: Live(d, j) ==> Live(c, j) && j != i;
  }

  /** What a step of the tasks keeps. */
  ghost predicate Kept(c: ControlState, d: ControlState) {
    Inv(d) && forall muted :: GateInv(c, muted) ==> GateInv(d, muted)
  }

  lemma ResumeKeeps(c: ControlState, i: nat, now: int, raised: bool)
    requires Inv(c) && i < |c.announcements| && !c.announcements[i].pc.Finished?
    ensures Kept(c, ResumeAnnouncement(c, i, now, raised))
  {
    match c.announcements[i].pc
    case Created => BeginKeeps(c, i, now, raised);
    case AwaitInterrupt => SpeakKeeps(c, i, now, raised);
    case AwaitPlayout => EndKeeps(c, i);
  }

  lemma BeginKeeps(c: ControlState, i: nat, now: int, raised: bool)
    requires Inv(c) && i < |c.announcements| && c.announcements[i].pc.Created?
    ensures Kept(c, ResumeAnnouncement(c, i, now, raised))
  {
    var t := c.announcements[i];
    var d := ResumeAnnouncement(c, i, now, raised);
    EndKeeps(c, i);
    if t.cancelled {
      assert c.current != Some(i);
      assert forall j: nat :: Live(d, j) ==> Live(c, j) && j != i;
    } else if c.deadlineMs - now > 0 {
      assert Live(c, i);
      var e := c.(timeout := Some(i),
                  announcements := c.announcements[i := t.(pc := AwaitInterrupt, timer := Armed(c.deadlineMs))]);
      assert forall j: nat :: Live(e, j) <==> Live(c, j);
      assert Inv(e);
      EndKeeps(e, i);
    }
  }

  lemma SpeakKeeps(c: ControlState, i: nat, now: int, raised: bool)
    requires Inv(c) && i < |c.announcements| && c.announcements[i].pc.AwaitInterrupt?
    ensures Kept(c, ResumeAnnouncement(c, i, now, raised))
  {
    EndKeeps(c, i);
    var t := c.announcements[i];
    if !(t.cancelled || raised || c.transferStatement == "") {
      assert Live(c, i);
      assert forall j: nat :: Live(ResumeAnnouncement(c, i, now, raised), j) <==> Live(c, j);
    }
  }

  lemma FailedSayKeeps(c: ControlState, i: nat)
    requires Inv(c) && SayMayFail(c, i)
    ensures Inv(FailedSay(c, i))
    ensures forall muted :: GateInv(c, muted) ==> GateInv(FailedSay(c, i), muted)
  {
    assert Live(c, i);
    var e := Say(SetOutput(c, true), Outro);
    var d := FailedSay(c, i);
    EndKeeps(c, i);
    assert c.current == Some(i);
    assert e.announcements == c.announcements;
    assert forall j: nat :: Live(d, j) <==> Live(EndAnnouncement(c, i), j);
  }

  lemma FireKeeps(c: ControlState, i: nat, now: int)
    requires Inv(c) && TimerDue(c, i, now)
    ensures Inv(FireTimer(c, i))
    ensures forall muted :: GateInv(c, muted) ==> GateInv(FireTimer(c, i), muted)
  {
    var d := FireTimer(c, i);
    assert forall j: nat :: Live(d, j) ==> Live(c, j) && j != i;
  }

  lemma FinishHandoffKeeps(c: ControlState, deadlineMs: int, now: int)
    requires Inv(c) && (c.stop.HandoffCreated? || c.stop.HandoffWaiting?)
    ensures Inv(FinishHandoff(c, deadlineMs, now))
    ensures forall muted :: GateInv(c, muted) ==> GateInv(FinishHandoff(c, deadlineMs, now), muted)
  {
    CancelKeeps(c);
    var e := CancelAnnouncement(c);
    var d := FinishHandoff(c, deadlineMs, now);
    assert forall j: nat :: Live(d, j) <==> Live(e, j);
  }

  lemma ResumeStopKeeps(c: ControlState, now: int)
    requires Inv(c) && StopMayResume(c, now)
    ensures Inv(ResumeStop(c, now))
    ensures forall muted :: GateInv(c, muted) ==> GateInv(ResumeStop(c, now), muted)
  {
    var d := ResumeStop(c, now);
    if c.stop.HandoffWaiting? || (c.stop.HandoffCreated? && c.current.None?) {
      FinishHandoffKeeps(c, c.stop.deadlineMs, now);
    } else {
      assert forall j: nat :: Live(d, j) <==> Live(c, j);
    }
  }

  lemma SilenceKeeps(c: ControlState, ready: bool)
    requires Inv(c)
    ensures Inv(Silence(c.(ready := ready))) && GateInv(Silence(c.(ready := ready)), true)
  {
    var d := Silence(c.(ready := ready));
    assert forall j: nat :: Live(d, j) <==> Live(c, j);
  }

  lemma CancelStopKeeps(c: ControlState)
    requires Inv(c) && StopMayCancel(c)
    ensures Inv(CancelStop(c))
    ensures forall muted :: GateInv(c, muted) ==> GateInv(CancelStop(c), muted)
  {
    var d := CancelStop(c);
    assert forall j: nat :: Live(d, j) <==> Live(c, j);
  }

  lemma CloseKeeps(c: ControlState)
    requires Inv(c) && GateInv(c, true)
    ensures Inv(CancelAnnouncement(c)) && GateInv(CancelAnnouncement(c), true)
  {
    CancelKeeps(c);
  }

  // ----- command memory -----

  function Ids(log: seq<Command>): (r: seq<string>)
    ensures |r| == |log|
  {
    seq(|log|, i requires 0 <= i < |log| => log[i].id)
  }

  /** seen is the last 256 accepted ids in order, and ids repeat only further apart than that. */
  ghost predicate Dedup(seen: seq<string>, log: seq<Command>) {
    && seen == Ids(log)[(if |log| > DEDUP_LIMIT then |log| - DEDUP_LIMIT else 0)..]
    && (forall i, j :: 0 <= i < j < |log| && j - i <= DEDUP_LIMIT ==> log[i].id != log[j].id)
  }

  lemma RememberKeeps(seen: seq<string>, log: seq<Command>, command: Command)
    requires Dedup(seen, log) && command.id !in seen
    ensures Dedup(Remember(seen, command.id), log + [command])
  {
    var next := log + [command];
    var from := if |log| > DEDUP_LIMIT then |log| - DEDUP_LIMIT else 0;
    forall i | 0 <= i < |log| && |log| - i <= DEDUP_LIMIT ensures next[i].id != command.id {
      assert Ids(log)[from..][i - from] == log[i].id;
    }
    assert Ids(next) == Ids(log) + [command.id];
  }

  /** What is said in one step: nothing new, or one phrase that is not the greeting. */
  ghost predicate GreetsNot(c: ControlState, d: ControlState) {
    match c.session
    case None => d.session.None?
    case Some(s) =>
      d.session.Some?
      && (d.session.value.said == s.said
          || d.session.value.said == s.said + [Outro]
          || d.session.value.said == s.said + [FailureNotice])
  }

  /** What no command changes. */
  ghost predicate Frame(c: ControlState, d: ControlState) {
    GreetsNot(c, d) && d.ready == c.ready && d.transferStatement == c.transferStatement
    && d.failedStatement == c.failedStatement
  }

  /** Steps that touch neither what was said nor what the SDK session was given. */
  ghost predicate SaysNothing(c: ControlState, d: ControlState) {
    && (d.session.Some? <==> c.session.Some?)
    && (c.session.Some? ==> d.session.value.said == c.session.value.said)
    && d.ready == c.ready && d.transferStatement == c.transferStatement
    && d.failedStatement == c.failedStatement && d.seen == c.seen
  }

  /** The takeover's own state is the same. */
  ghost predicate StopSame(c: ControlState, d: ControlState) {
    d.stop == c.stop && d.stopCancelled == c.stopCancelled && d.stopping == c.stopping
  }

  lemma StartFrame(c: ControlState, now: int)
    ensures SaysNothing(c, StartAnnouncement(c, now)) && StopSame(c, StartAnnouncement(c, now))
    ensures StartAnnouncement(c, now).transferring == c.transferring
    ensures StartAnnouncement(c, now).stopsCreated == c.stopsCreated
  {
  }

  /** What activating, and greeting the caller then, leave alone. */
  ghost predicate ActivateSame(c: ControlState, d: ControlState) {
    StopSame(c, d) && d.stopsCreated == c.stopsCreated && d.transferring == c.transferring && d.seen == c.seen
  }

  lemma ActivateFrame(c: ControlState, now: int)
    ensures ActivateSame(c, Activate(c, now))
  {
    StartFrame(c.(ready := true), now);
  }

  lemma GreetFrame(c: ControlState)
    ensures ActivateSame(c, Say(SetGates(c, true, true), Greeting))
  {
  }

  lemma PrepareFrame(c: ControlState, deadlineMs: int, now: int, lost: nat)
    ensures SaysNothing(c, Prepare(c, deadlineMs, now, lost))
  {
    var d := c.(stopping := true, deadlineMs := now + Grace(deadlineMs, now) - lost);
    StartFrame(d.(transferring := true), now);
  }

  lemma AnsweredFrame(c: ControlState, deadlineMs: int, now: int, lost: nat)
    ensures SaysNothing(c, Answered(c, deadlineMs, now, lost))
  {
    PrepareFrame(c, deadlineMs, now, lost);
    LeaveFrame(Prepare(c, deadlineMs, now, lost), Grace(deadlineMs, now));
  }

  lemma LeaveFrame(c: ControlState, r: int)
    ensures SaysNothing(c, Leave(c, r))
  {
    CancelFrame(c);
    SilenceFrame(CancelAnnouncement(c));
  }

  lemma CancelFrame(c: ControlState)
    ensures SaysNothing(c, CancelAnnouncement(c))
  {
  }

  lemma SilenceFrame(c: ControlState)
    ensures SaysNothing(c, Silence(c))
  {
  }

  lemma ReceiveFrame(c: ControlState, packet: Option<Command>, now: int, lost: nat)
    ensures
      var d := Receive(c, packet, now, lost);
      && Frame(c, d)
      && (Accepts(c, packet) ==> d.seen == Remember(c.seen, packet.value.id))
      && (!Accepts(c, packet) ==> d == c)
  {
    if Accepts(c, packet) {
      var cmd := packet.value;
      var d := c.(seen := Remember(c.seen, cmd.id));
      match cmd.action
      case HumanAnswered => AnsweredFrame(d, cmd.deadlineMs, now, lost);
      case TransferRequested =>
      case TransferFailed =>
    }
  }

  /** What no resumption of a task changes. */
  ghost predicate TaskFrame(c: ControlState, d: ControlState) {
    && Frame(c, d) && d.seen == c.seen && d.stopping == c.stopping && d.transferring == c.transferring
    && d.stopsCreated == c.stopsCreated
    && (d.current.Some? ==> c.current == d.current)
  }

  lemma EndFrame(c: ControlState, i: nat)
    requires i < |c.announcements|
    ensures TaskFrame(c, EndAnnouncement(c, i)) && SaysNothing(c, EndAnnouncement(c, i))
    ensures StopSame(c, EndAnnouncement(c, i))
  {
  }

  lemma ResumeFrame(c: ControlState, i: nat, now: int, raised: bool)
    requires i < |c.announcements| && !c.announcements[i].pc.Finished?
    ensures TaskFrame(c, ResumeAnnouncement(c, i, now, raised)) && StopSame(c, ResumeAnnouncement(c, i, now, raised))
  {
    var t := c.announcements[i];
    EndFrame(c, i);
    if t.pc.Created? && !t.cancelled && c.deadlineMs - now > 0 {
      var d := c.(timeout := Some(i),
                  announcements := c.announcements[i := t.(pc := AwaitInterrupt, timer := Armed(c.deadlineMs))]);
      EndFrame(d, i);
    }
  }

  lemma FailedSayFrame(c: ControlState, i: nat)
    requires i < |c.announcements| && !c.announcements[i].pc.Finished?
    ensures TaskFrame(c, FailedSay(c, i)) && StopSame(c, FailedSay(c, i))
  {
    EndFrame(Say(SetOutput(c, true), Outro), i);
  }

  lemma FinishFrame(c: ControlState, deadlineMs: int, now: int)
    ensures TaskFrame(c, FinishHandoff(c, deadlineMs, now))
  {
    var d := CancelAnnouncement(c);
    assert TaskFrame(c, d);
  }

  lemma ResumeStopFrame(c: ControlState, now: int)
    requires StopMayResume(c, now)
    ensures TaskFrame(c, ResumeStop(c, now))
  {
    match c.stop
    case HandoffCreated(d) =>
      FinishFrame(c, d, now);
    case HandoffWaiting(d, _, _) =>
      FinishFrame(c, d, now);
    case StopCreated(r) =>
    case Disconnecting(_) =>
  }
}
