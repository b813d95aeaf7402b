/**
 * The whole job of src/aida_agent/worker.py with its transcripts: the session callbacks that
 * forward recognized and spoken text, the handset feed whose failure aborts the job, and the
 * history that observers read.
 */
module Calls {
  import opened Wrappers
  import A = Admission
  import C = Control
  import W = Worker
  import WI = WorkerInvariant
  import WR = WorkerRuns
  import H = History
  import T = Transcripts
  import P = Publisher

  const CAPACITY: nat := 128

  /** started: publisher.start() has been called. */
  datatype Call = Call(job: W.World, history: H.World, feed: P.Feed, started: bool)

  datatype Step =
    | JobStep(event: W.Event)
    | CallerSpeaks(text: string, final: bool, uuid: string, segment: string)
    | ItemAdded(item: H.Item)
    | ItemRecorded(item: H.Item)
    | Sender(step: P.Step)

  /** The guard of both callbacks. */
  predicate Forwards(w: W.World) { w.control.ready && !w.aborted && !w.control.stopping }

  /** The feed moves on, and calls abort if it reports a failure. */
  function FeedStep(c: Call, step: P.Step): Call
    requires P.Enabled(c.feed, step)
  {
    var feed := P.Next(c.feed, step);
    c.(feed := feed, job := W.AbortIf(c.job, feed.publisher.failures > c.feed.publisher.failures))
  }

  /** user_input_transcribed: first the handset, then the history, under one check. */
  function OnCaller(c: Call, text: string, final: bool, uuid: string, segment: string): Call {
    if !Forwards(c.job) then c
    else
      FeedStep(c, P.Produce(T.Caller(text, final, uuid))).(
        history := H.Next(c.history, H.Speak(text, final, segment)))
  }

  /** conversation_item_added: the item is in the session's history; each use has its own check. */
  function OnItem(c: Call, item: H.Item): Call {
    if !Forwards(c.job) then c.(history := c.history.(items := c.history.items + [item]))
    else
      var d := c.(history := H.Next(c.history, H.Commit(item)));
      if item.role.Assistant? then FeedStep(d, P.Produce(T.Assistant(item.text, item.id))) else d
  }

  ghost predicate Enabled(c: Call, s: Step) {
    match s
    case JobStep(e) => W.Enabled(c.job, e) && !e.PublisherFailed?
    case CallerSpeaks(text, final, _, segment) =>
      c.job.control.session.Some? && H.Enabled(c.history, H.Speak(text, final, segment))
    case ItemAdded(item) => c.job.control.session.Some? && H.Enabled(c.history, H.Commit(item))
    case ItemRecorded(item) => c.job.control.session.Some? && H.Enabled(c.history, H.Append(item))
    case Sender(step) =>
      && P.Enabled(c.feed, step)
      && match step
         case Produce(_) => false
         case Start => c.started
         case Stop => c.job.cleaned && !W.Pending(c.job.startup)
         case _ => true
  }

  function Next(c: Call, s: Step): Call
    requires Enabled(c, s)
  {
    match s
    case JobStep(e) =>
      var job := W.Next(c.job, e);
      c.(job := job, started := c.started || (job.control.ready && !c.job.control.ready))
    case CallerSpeaks(text, final, uuid, segment) => OnCaller(c, text, final, uuid, segment)
    case ItemAdded(item) => OnItem(c, item)
    case ItemRecorded(item) => c.(history := c.history.(items := c.history.items + [item]))
    case Sender(step) => FeedStep(c, step)
  }

  ghost predicate IsStart(c: Call) {
    && WR.IsStart(c.job) && c.history == H.World(H.NEW_HISTORY, [], []) && c.feed == P.Begin(CAPACITY) && !c.started
  }

  ghost predicate StepAt(cs: seq<Call>, ss: seq<Step>, i: nat)
    requires |cs| == |ss| + 1 && i < |ss|
  {
    Enabled(cs[i], ss[i]) && cs[i + 1] == Next(cs[i], ss[i])
  }

  ghost predicate IsRun(cs: seq<Call>, ss: seq<Step>) {
    && |cs| == |ss| + 1 && IsStart(cs[0])
    && (forall i: nat {:trigger StepAt(cs, ss, i)} :: i < |ss| ==> StepAt(cs, ss, i))
  }

  // ----- the invariant -----

  ghost predicate Untouched(c: Call) {
    && c.history == H.World(H.NEW_HISTORY, c.history.items, []) && H.UniqueIds(c.history.items)
    && c.feed.produced == [] && (c.feed.publisher.sender.Unstarted? || c.feed.publisher.sender.Over?)
  }

  ghost predicate Inv(c: Call) {
    && W.Inv(c.job) && P.Inv(c.feed)
    && (c.feed.publisher.closed ==> W.Muted(c.job))
    && (c.job.control.ready ==> c.started)
    && (c.started ==> c.job.control.session.Some? && c.job.log.readiness == 1 && !W.Pending(c.job.startup))
    && (!c.started ==> Untouched(c))
  }

  /** The startup coroutine will make no further step. */
  predicate Over(w: W.World) { !W.Pending(w.startup) || w.startupCancel }

  /** What a job whose startup is over keeps. */
  ghost predicate Settled(w: W.World, v: W.World) {
    && (!W.Pending(w.startup) ==> !W.Pending(v.startup)) && (w.startupCancel ==> v.startupCancel)
    && (w.control.session.Some? ==> v.control.session.Some?)
    && (!w.control.ready ==> !v.control.ready)
  }

  lemma TaskSettles(w: W.World, e: W.Event)
    requires W.Inv(w) && W.Enabled(w, e) && W.IsTask(e)
    ensures Settled(w, W.Next(w, e))
  {
    WI.TaskControl(w, e);
  }

  lemma DataSettles(w: W.World, e: W.Event)
    requires W.Enabled(w, e) && e.Data?
    ensures Settled(w, W.Next(w, e))
  {
    C.ReceiveFrame(w.control, e.packet, w.now, e.lost);
  }

  lemma RoomSettles(w: W.World, e: W.Event)
    requires W.Enabled(w, e) && W.IsRoomEvent(e)
    ensures Settled(w, W.Next(w, e))
  {
  }

  lemma OthersSettle(w: W.World, e: W.Event)
    requires W.Enabled(w, e) && !W.IsTask(e) && !e.Data? && !W.IsRoomEvent(e) && !e.StartupStep?
    ensures Settled(w, W.Next(w, e))
  {
  }

  lemma StepSettles(w: W.World, e: W.Event)
    requires W.Inv(w) && W.Enabled(w, e) && Over(w)
    ensures Settled(w, W.Next(w, e))
  {
    if W.IsTask(e) { TaskSettles(w, e); }
    else if e.Data? { DataSettles(w, e); }
    else if W.IsRoomEvent(e) { RoomSettles(w, e); }
    else { OthersSettle(w, e); }
  }

  lemma JobStepKeeps(c: Call, e: W.Event)
    requires Inv(c) && Enabled(c, JobStep(e))
    ensures Inv(Next(c, JobStep(e)))
  {
    WI.StepKeeps(c.job, e);
    if W.Muted(c.job) { WR.MutedStays(c.job, e); }
    if c.started {
      StepSettles(c.job, e);
      WR.ReadinessStep(c.job, e);
    }
  }

  /** A step of the feed that has started, or that only closes it. */
  lemma FeedStepKeeps(c: Call, step: P.Step)
    requires Inv(c) && P.Enabled(c.feed, step)
    requires step.Stop? ==> W.Muted(c.job)
    requires step.Produce? || step.Start? ==> c.started
    ensures Inv(FeedStep(c, step))
  {
    P.StepKeeps(c.feed, step);
    WI.AbortKeeps(c.job);
    WI.AbortLeaves(c.job);
  }

  lemma StepKeeps(c: Call, s: Step)
    requires Inv(c) && Enabled(c, s)
    ensures Inv(Next(c, s))
  {
    match s
    case JobStep(e) => JobStepKeeps(c, e);
    case CallerSpeaks(text, final, uuid, segment) =>
      if Forwards(c.job) { FeedStepKeeps(c, P.Produce(T.Caller(text, final, uuid))); }
    case ItemAdded(item) => ItemKeeps(c, item);
    case ItemRecorded(item) =>
    case Sender(step) => FeedStepKeeps(c, step);
  }

  lemma ItemKeeps(c: Call, item: H.Item)
    requires Inv(c) && H.Enabled(c.history, H.Commit(item))
    ensures Inv(OnItem(c, item))
  {
    if Forwards(c.job) {
      var d := c.(history := H.Next(c.history, H.Commit(item)));
      assert Inv(d);
      if item.role.Assistant? { FeedStepKeeps(d, P.Produce(T.Assistant(item.text, item.id))); }
    }
  }

  lemma {:induction false} RunKeeps(cs: seq<Call>, ss: seq<Step>, i: nat)
    requires IsRun(cs, ss) && i < |cs|
    ensures Inv(cs[i])
  {
    if i == 0 {
      var room, attribute :| A.RoomOk(room) && cs[0].job == W.Begin(cs[0].job.now, room, attribute);
      WI.BeginHolds(cs[0].job.now, room, attribute);
    } else {
      RunKeeps(cs, ss, i - 1);
      assert StepAt(cs, ss, i - 1);
      StepKeeps(cs[i - 1], ss[i - 1]);
    }
  }
}
