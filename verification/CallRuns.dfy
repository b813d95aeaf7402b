/** What holds over whole runs of the job with its transcripts. */
module CallRuns {
  import opened Wrappers
  import opened Calls
  import W = Worker
  import WI = WorkerInvariant
  import WR = WorkerRuns
  import H = History
  import O = Observer
  import T = Transcripts
  import P = Publisher

  // ----- the job's part of a run is a run of the job -----

  /** One step of the job, or none. */
  ghost predicate JobMoves(w: W.World, v: W.World) {
    v == w || exists e :: W.Enabled(w, e) && v == W.Next(w, e)
  }

  /** An abort by the feed is the job's own event. */
  lemma FeedMovesJob(c: Call, step: P.Step)
    requires P.Enabled(c.feed, step) && c.job.control.session.Some?
    ensures JobMoves(c.job, FeedStep(c, step).job)
  {
    assert W.Enabled(c.job, W.PublisherFailed) && W.Next(c.job, W.PublisherFailed) == W.Abort(c.job);
  }

  /** Before it starts the feed reports nothing. */
  lemma UnstartedReports(c: Call, step: P.Step)
    requires Inv(c) && Enabled(c, Sender(step)) && !c.started
    ensures FeedStep(c, step).job == c.job
  {
  }

  lemma StepMovesJob(c: Call, s: Step)
    requires Inv(c) && Enabled(c, s)
    ensures JobMoves(c.job, Next(c, s).job)
  {
    match s
    case JobStep(e) => assert W.Enabled(c.job, e);
    case CallerSpeaks(text, final, uuid, segment) =>
      if Forwards(c.job) { FeedMovesJob(c, P.Produce(T.Caller(text, final, uuid))); }
    case ItemAdded(item) =>
      if Forwards(c.job) && item.role.Assistant? {
        FeedMovesJob(c.(history := H.Next(c.history, H.Commit(item))), P.Produce(T.Assistant(item.text, item.id)));
      }
    case ItemRecorded(item) =>
    case Sender(step) =>
      if c.started { FeedMovesJob(c, step); } else { UnstartedReports(c, step); }
  }

  lemma JobMovesAt(cs: seq<Call>, ss: seq<Step>, i: nat)
    requires IsRun(cs, ss) && i < |ss|
    ensures JobMoves(cs[i].job, cs[i + 1].job)
  {
    RunKeeps(cs, ss, i);
    assert StepAt(cs, ss, i);
    StepMovesJob(cs[i], ss[i]);
  }

  /** The job's part of a run, without the steps that leave it alone. */
  lemma {:induction false} JobIsRun(cs: seq<Call>, ss: seq<Step>, i: nat) returns (ws: seq<W.World>, es: seq<W.Event>)
    requires IsRun(cs, ss) && i < |cs|
    ensures WR.IsRun(ws, es) && ws[|es|] == cs[i].job
  {
    if i == 0 {
      ws, es := [cs[0].job], [];
    } else {
      ws, es := JobIsRun(cs, ss, i - 1);
      JobMovesAt(cs, ss, i - 1);
      ws, es := ExtendJob(ws, es, cs[i].job);
    }
  }

  lemma ExtendJob(ws: seq<W.World>, es: seq<W.Event>, v: W.World) returns (ws2: seq<W.World>, es2: seq<W.Event>)
    requires WR.IsRun(ws, es) && JobMoves(ws[|es|], v)
    ensures WR.IsRun(ws2, es2) && ws2[|es2|] == v
  {
    ws2, es2 := ws, es;
    if v != ws[|es|] {
      var e :| W.Enabled(ws[|es|], e) && v == W.Next(ws[|es|], e);
      WR.Extend(ws, es, e);
      ws2, es2 := ws + [v], es + [e];
    }
  }

  // ----- the feed's part is a run of the feed -----

  ghost predicate FeedMoves(f: P.Feed, g: P.Feed) {
    g == f || exists step :: P.Enabled(f, step) && g == P.Next(f, step)
  }

  lemma StepMovesFeed(c: Call, s: Step)
    requires Enabled(c, s)
    ensures FeedMoves(c.feed, Next(c, s).feed)
  {
    match s
    case CallerSpeaks(text, final, uuid, _) => assert P.Enabled(c.feed, P.Produce(T.Caller(text, final, uuid)));
    case ItemAdded(item) => assert P.Enabled(c.feed, P.Produce(T.Assistant(item.text, item.id)));
    case Sender(step) => assert P.Enabled(c.feed, step);
    case _ =>
  }

  lemma ExtendFeed(fs: seq<P.Feed>, steps: seq<P.Step>, step: P.Step)
    requires P.IsRun(fs, steps) && P.Enabled(fs[|steps|], step)
    ensures P.IsRun(fs + [P.Next(fs[|steps|], step)], steps + [step])
  {
  }

  lemma {:induction false} FeedIsRun(cs: seq<Call>, ss: seq<Step>, i: nat) returns (fs: seq<P.Feed>, steps: seq<P.Step>)
    requires IsRun(cs, ss) && i < |cs|
    ensures P.IsRun(fs, steps) && fs[|steps|] == cs[i].feed && fs[0] == P.Begin(CAPACITY)
  {
    if i == 0 {
      fs, steps := [cs[0].feed], [];
    } else {
      fs, steps := FeedIsRun(cs, ss, i - 1);
      assert StepAt(cs, ss, i - 1);
      StepMovesFeed(cs[i - 1], ss[i - 1]);
      if cs[i].feed != cs[i - 1].feed {
        var step :| P.Enabled(cs[i - 1].feed, step) && cs[i].feed == P.Next(cs[i - 1].feed, step);
        ExtendFeed(fs, steps, step);
        fs, steps := fs + [cs[i].feed], steps + [step];
      }
    }
  }

  // ----- forwarding stops for good -----

  /** The startup is over and the guard of the callbacks is false. */
  predicate Shut(c: Call) { Over(c.job) && !Forwards(c.job) }

  ghost predicate SameForwarded(c: Call, d: Call) {
    && d.feed.produced == c.feed.produced && d.history.log == c.history.log && d.history.history == c.history.history
  }

  lemma JobStepShuts(w: W.World, e: W.Event)
    requires W.Inv(w) && W.Enabled(w, e) && Over(w) && !Forwards(w)
    ensures Over(W.Next(w, e)) && !Forwards(W.Next(w, e))
  {
    StepSettles(w, e);
    if w.aborted { AbortedStays(w, e); }
    if w.control.stopping { WR.StoppingStep(w, e); }
  }

  lemma AbortedStays(w: W.World, e: W.Event)
    requires W.Enabled(w, e) && w.aborted && Over(w)
    ensures W.Next(w, e).aborted
  {
    if W.IsRoomEvent(e) { RoomStaysAborted(w, e); } else { OthersStayAborted(w, e); }
  }

  lemma RoomStaysAborted(w: W.World, e: W.Event)
    requires W.Enabled(w, e) && w.aborted && W.IsRoomEvent(e)
    ensures W.Next(w, e).aborted
  {
  }

  lemma OthersStayAborted(w: W.World, e: W.Event)
    requires W.Enabled(w, e) && w.aborted && !W.IsRoomEvent(e) && !e.StartupStep?
    ensures W.Next(w, e).aborted
  {
  }

  lemma MovesShut(w: W.World, v: W.World)
    requires W.Inv(w) && JobMoves(w, v) && Over(w) && !Forwards(w)
    ensures Over(v) && !Forwards(v)
  {
    if v != w {
      var e :| W.Enabled(w, e) && v == W.Next(w, e);
      JobStepShuts(w, e);
    }
  }

  lemma ShutStep(c: Call, s: Step)
    requires Inv(c) && Enabled(c, s) && Shut(c)
    ensures Shut(Next(c, s)) && SameForwarded(c, Next(c, s))
  {
    StepMovesJob(c, s);
    MovesShut(c.job, Next(c, s).job);
  }

  lemma {:induction false} ShutRuns(cs: seq<Call>, ss: seq<Step>, i: nat, j: nat)
    requires IsRun(cs, ss) && i <= j < |cs| && Shut(cs[i])
    ensures Shut(cs[j]) && SameForwarded(cs[i], cs[j])
    decreases j
  {
    if i < j {
      ShutRuns(cs, ss, i, j - 1);
      ShutAt(cs, ss, j - 1);
    }
  }

  lemma ShutAt(cs: seq<Call>, ss: seq<Step>, i: nat)
    requires IsRun(cs, ss) && i < |ss| && Shut(cs[i])
    ensures Shut(cs[i + 1]) && SameForwarded(cs[i], cs[i + 1])
  {
    RunKeeps(cs, ss, i);
    assert StepAt(cs, ss, i);
    ShutStep(cs[i], ss[i]);
  }

  /**
   * Nothing is forwarded before readiness is published; and from a takeover, an abort or a
   * cleanup on, neither the handset feed nor the history gets anything more.
   */
  lemma NothingForwarded(cs: seq<Call>, ss: seq<Step>, i: nat, j: nat)
    requires IsRun(cs, ss) && i <= j < |cs|
    ensures cs[i].job.log.readiness == 0 ==>
              cs[i].feed.produced == [] && cs[i].history.log == [] && cs[i].history.history == H.NEW_HISTORY
    ensures W.Muted(cs[i].job) || cs[i].job.control.stopping ==> SameForwarded(cs[i], cs[j])
  {
    RunKeeps(cs, ss, i);
    if cs[i].job.control.stopping { WR.NoStartupAfterTakeover(cs[i].job); }
    if W.Muted(cs[i].job) || cs[i].job.control.stopping { ShutRuns(cs, ss, i, j); }
  }

  // ----- the history's part is a run of the history -----

  /** The run's history, up to items that came after the callbacks stopped forwarding. */
  ghost predicate Tracks(c: Call, hs: seq<H.World>, es: seq<H.Event>) {
    && H.IsRun(hs, es)
    && hs[|es|].history == c.history.history && hs[|es|].log == c.history.log && hs[|es|].items <= c.history.items
    && (!Shut(c) ==> hs[|es|] == c.history)
  }

  lemma ExtendHistory(hs: seq<H.World>, es: seq<H.Event>, e: H.Event)
    requires H.IsRun(hs, es) && H.Enabled(hs[|es|], e)
    ensures H.IsRun(hs + [H.Next(hs[|es|], e)], es + [e])
  {
    var hs2, es2 := hs + [H.Next(hs[|es|], e)], es + [e];
    forall i: nat {:trigger H.StepAt(hs2, es2, i)} | i < |es2| ensures H.StepAt(hs2, es2, i) {
      if i < |es| { assert H.StepAt(hs, es, i); }
    }
  }

  /** What the step does to the history, while it is forwarded to. */
  function HistoryMove(s: Step): Option<H.Event> {
    match s
    case CallerSpeaks(text, final, _, segment) => Some(H.Speak(text, final, segment))
    case ItemAdded(item) => Some(H.Commit(item))
    case ItemRecorded(item) => Some(H.Append(item))
    case _ => None
  }

  lemma OpenStep(c: Call, s: Step)
    requires Enabled(c, s) && Forwards(c.job)
    ensures HistoryMove(s).Some? ==>
              H.Enabled(c.history, HistoryMove(s).value)
                  && Next(c, s).history == H.Next(c.history, HistoryMove(s).value)
    ensures HistoryMove(s).None? ==> Next(c, s).history == c.history
  {
  }

  /** The items only grow. */
  lemma ItemsGrow(c: Call, s: Step)
    requires Enabled(c, s)
    ensures c.history.items <= Next(c, s).history.items
  {
  }

  lemma {:induction false} StartedStays(cs: seq<Call>, ss: seq<Step>, i: nat, j: nat)
    requires IsRun(cs, ss) && i <= j < |cs| && !cs[j].started
    ensures !cs[i].started
    decreases j
  {
    if i < j {
      assert StepAt(cs, ss, j - 1);
      StartedStays(cs, ss, i, j - 1);
    }
  }

  lemma NoneForwards(cs: seq<Call>, ss: seq<Step>, i: nat)
    requires IsRun(cs, ss) && i < |cs| && !cs[i].started
    ensures forall k: nat :: k <= i ==> !Forwards(cs[k].job)
  {
    forall k: nat | k <= i ensures !Forwards(cs[k].job) {
      StartedStays(cs, ss, k, i);
      RunKeeps(cs, ss, k);
    }
  }

  /** Every history that was read up to step i is a state of the run. */
  ghost predicate Seen(cs: seq<Call>, i: nat, hs: seq<H.World>)
    requires i < |cs|
  {
    forall k: nat :: k <= i && Forwards(cs[k].job) ==> cs[k].history in hs
  }

  lemma SeenGrows(cs: seq<Call>, i: nat, hs: seq<H.World>, hs2: seq<H.World>)
    requires 0 < i < |cs| && Seen(cs, i - 1, hs) && hs <= hs2
    requires Forwards(cs[i].job) ==> cs[i].history in hs2
    ensures Seen(cs, i, hs2)
  {
    assert forall h :: h in hs ==> h in hs2;
  }

  /**
   * What observers read while transcripts are available is the history of a run of module
   * History, so everything proved of those runs holds of it.
   */
  lemma {:induction false} HistoryIsRun(cs: seq<Call>, ss: seq<Step>, i: nat)
    returns (hs: seq<H.World>, es: seq<H.Event>)
    requires IsRun(cs, ss) && i < |cs|
    ensures Tracks(cs[i], hs, es) && Seen(cs, i, hs)
  {
    if !cs[i].started {
      hs, es := HistoryBegins(cs, ss, i);
    } else {
      assert i > 0;
      var before, events := HistoryIsRun(cs, ss, i - 1);
      hs, es := HistoryAt(cs, ss, i - 1, before, events);
      SeenGrows(cs, i, before, hs);
    }
  }

  lemma HistoryBegins(cs: seq<Call>, ss: seq<Step>, i: nat) returns (hs: seq<H.World>, es: seq<H.Event>)
    requires IsRun(cs, ss) && i < |cs| && !cs[i].started
    ensures Tracks(cs[i], hs, es) && Seen(cs, i, hs)
  {
    RunKeeps(cs, ss, i);
    NoneForwards(cs, ss, i);
    hs, es := [cs[i].history], [];
  }

  lemma HistoryAt(cs: seq<Call>, ss: seq<Step>, i: nat, hs: seq<H.World>, es: seq<H.Event>)
    returns (hs2: seq<H.World>, es2: seq<H.Event>)
    requires IsRun(cs, ss) && i < |ss| && cs[i + 1].started && Tracks(cs[i], hs, es)
    ensures Tracks(cs[i + 1], hs2, es2) && hs <= hs2
    ensures Forwards(cs[i + 1].job) ==> cs[i + 1].history in hs2
  {
    RunKeeps(cs, ss, i);
    assert StepAt(cs, ss, i);
    hs2, es2 := HistoryGoesOn(cs[i], ss[i], hs, es);
    assert Forwards(cs[i + 1].job) ==> !Shut(cs[i + 1]);
    assert hs2[|es2|] in hs2;
  }

  lemma HistoryGoesOn(c: Call, s: Step, hs: seq<H.World>, es: seq<H.Event>)
    returns (hs2: seq<H.World>, es2: seq<H.Event>)
    requires Inv(c) && Enabled(c, s) && Next(c, s).started && Tracks(c, hs, es)
    ensures Tracks(Next(c, s), hs2, es2) && hs <= hs2
  {
    hs2, es2 := hs, es;
    ItemsGrow(c, s);
    if Forwards(c.job) {
      OpenStep(c, s);
      if HistoryMove(s).Some? {
        ExtendHistory(hs, es, HistoryMove(s).value);
        hs2, es2 := hs + [Next(c, s).history], es + [HistoryMove(s).value];
      }
    } else if Over(c.job) {
      ShutStep(c, s);
    } else {
      assert !c.started;
    }
  }

  /**
   * An observer that takes its snapshot while transcripts are available converges, in a run of
   * the whole job, under the condition that holds for the history alone.
   */
  lemma ConvergesInCall(cs: seq<Call>, ss: seq<Step>, k: nat, n: nat, arrivals: seq<H.Row>)
    requires IsRun(cs, ss) && k <= n < |cs| && Forwards(cs[k].job) && Forwards(cs[n].job)
    requires forall a :: a in arrivals ==> a in cs[n].history.log
    ensures O.Fold(O.View(cs[k].history), arrivals) == O.View(cs[n].history)
            <==> O.NewestArrived(cs[k].history, cs[n].history, arrivals)
  {
    var hs, es := HistoryIsRun(cs, ss, n);
    var a: nat :| a < |hs| && hs[a] == cs[k].history;
    O.Convergence(hs, es, a, |es|, arrivals);
  }

  // ----- the feed and the job -----

  /**
   * While the callbacks forward, the handset feed is open and everything produced has been
   * attempted or is queued, in order; and a feed that closes has aborted the job, unless the job
   * was ending already.
   */
  lemma FeedKeepsUp(cs: seq<Call>, ss: seq<Step>, i: nat)
    requires IsRun(cs, ss) && i < |cs|
    ensures Forwards(cs[i].job) ==>
              var p := cs[i].feed.publisher;
              !p.closed && p.attempted + p.queue == cs[i].feed.produced
    ensures cs[i].feed.publisher.closed ==> W.Muted(cs[i].job)
    ensures cs[i].feed.publisher.failures <= 1
  {
    RunKeeps(cs, ss, i);
  }

  /**
   * Recognized text reaches both transcripts exactly while the job is ready, not aborted and not
   * stopping.
   */
  lemma CallerForwarded(c: Call, s: Step)
    requires Enabled(c, s) && s.CallerSpeaks?
    ensures
      var d, made := Next(c, s), T.OnCaller(c.feed.stream, s.text, s.final, s.uuid);
      if c.job.control.ready && !c.job.aborted && !c.job.control.stopping then
        && d.history == H.Next(c.history, H.Speak(s.text, s.final, s.segment))
        && d.feed.stream == made.stream
        && d.feed.produced == c.feed.produced + (if made.event.Some? then [made.event.value] else [])
        && (d.job == c.job || (d.job == W.Abort(c.job) && d.feed.publisher.closed))
      else d == c
  {
  }

  /** So do items of the session: to the history, and the assistant's to the handset too. */
  lemma ItemForwarded(c: Call, s: Step)
    requires Enabled(c, s) && s.ItemAdded?
    ensures
      var d, made := Next(c, s), T.OnAssistant(c.feed.stream, s.item.text, s.item.id);
      var open := c.job.control.ready && !c.job.aborted && !c.job.control.stopping;
      && d.history == (if open then H.Next(c.history, H.Commit(s.item))
                       else c.history.(items := c.history.items + [s.item]))
      && d.feed.produced
         == c.feed.produced + (if open && s.item.role.Assistant? && made.event.Some? then [made.event.value] else [])
      && (!(open && s.item.role.Assistant?) ==> d.feed == c.feed && d.job == c.job)
  {
    assert c.feed.produced + [] == c.feed.produced;
  }
}
