/**
 * The one sender of src/aida_agent/transcripts.py: a bounded queue that fails closed.  A run
 * interleaves the stream that makes events with the sender that delivers them.
 */
module Publisher {
  import opened Wrappers
  import T = Transcripts

  /** Where _run is: not started, in queue.get(), awaiting publish_data, or over. */
  datatype Sender = Unstarted | Getting | Sending(event: T.Event) | Over

  datatype PublisherState = PublisherState(
    queue: seq<T.Event>,
    capacity: nat,
    closed: bool,
    sender: Sender,
    attempted: seq<T.Event>,  // every event publish_data was called with
    failures: nat             // calls of on_failure
  )

  function Fail(p: PublisherState): PublisherState {
    if p.closed then p else p.(closed := true, failures := p.failures + 1)
  }

  /** asyncio.Queue: a capacity of zero is no bound. */
  predicate Full(p: PublisherState) { 0 < p.capacity <= |p.queue| }

  function Enqueue(p: PublisherState, event: Option<T.Event>): PublisherState {
    if event.None? || p.closed then p
    else if Full(p) then Fail(p)
    else p.(queue := p.queue + [event.value])
  }

  /** The loop condition of _run. */
  function Loop(p: PublisherState): PublisherState {
    p.(sender := if p.closed then Over else Getting)
  }

  function Get(p: PublisherState): PublisherState
    requires p.queue != []
  {
    p.(queue := p.queue[1..], sender := Sending(p.queue[0]), attempted := p.attempted + [p.queue[0]])
  }

  /** publish_data returned, or raised or timed out. */
  function Sent(p: PublisherState, ok: bool): PublisherState {
    Loop(if ok then p else Fail(p))
  }

  function Close(p: PublisherState): PublisherState { p.(closed := true, sender := Over) }

  function Fresh(capacity: nat): PublisherState { PublisherState([], capacity, false, Unstarted, [], 0) }

  // ----- stream and sender together -----

  datatype Feed = Feed(stream: T.Stream, produced: seq<T.Event>, publisher: PublisherState, closedAt: Option<nat>)

  datatype Step =
    | Produce(call: T.Call)
    | Start
    | Take
    | Finish(ok: bool)
    | Stop

  predicate Enabled(f: Feed, s: Step) {
    match s
    case Produce(_) => true
    case Start => f.publisher.sender.Unstarted?
    case Take => f.publisher.sender.Getting? && f.publisher.queue != []
    case Finish(_) => f.publisher.sender.Sending?
    case Stop => true
  }

  /** closedAt: how many failures had been reported when close() was called. */
  function Next(f: Feed, s: Step): Feed
    requires Enabled(f, s)
  {
    match s
    case Produce(call) =>
      var made := T.Apply(f.stream, call);
      f.(stream := made.stream,
         produced := f.produced + (if made.event.Some? then [made.event.value] else []),
         publisher := Enqueue(f.publisher, made.event))
    case Start => f.(publisher := Loop(f.publisher))
    case Take => f.(publisher := Get(f.publisher))
    case Finish(ok) => f.(publisher := Sent(f.publisher, ok))
    case Stop => f.(publisher := Close(f.publisher),
                    closedAt := if f.closedAt.Some? then f.closedAt else Some(f.publisher.failures))
  }

  function Begin(capacity: nat): Feed { Feed(T.NEW_STREAM, [], Fresh(capacity), None) }

  /** The states of a run that starts with an empty queue. */
  ghost predicate IsRun(fs: seq<Feed>, steps: seq<Step>) {
    && |fs| == |steps| + 1 && fs[0] == Begin(fs[0].publisher.capacity)
    && (forall i :: 0 <= i < |steps| ==> Enabled(fs[i], steps[i]) && fs[i + 1] == Next(fs[i], steps[i]))
  }

  ghost predicate Inv(f: Feed) {
    var p := f.publisher;
    && f.stream.sequence == |f.produced|
    && (forall i :: 0 <= i < |f.produced| ==> f.produced[i].sequence == i + 1)
    && p.attempted + p.queue <= f.produced
    && (!p.closed ==> p.attempted + p.queue == f.produced)
    && (p.capacity > 0 ==> |p.queue| <= p.capacity)
    && p.failures <= 1 && (p.failures == 1 ==> p.closed)
    && (f.closedAt.Some? ==> p.closed && p.failures == f.closedAt.value && p.sender.Over?)
    && (p.sender.Sending? ==> p.attempted != [] && p.attempted[|p.attempted| - 1] == p.sender.event)
  }

  lemma StepKeeps(f: Feed, s: Step)
    requires Inv(f) && Enabled(f, s)
    ensures Inv(Next(f, s))
  {
    var p := f.publisher;
    match s
    case Produce(call) =>
      var made := T.Apply(f.stream, call);
      if made.event.Some? && !p.closed && !Full(p) {
        assert p.attempted + (p.queue + [made.event.value]) == f.produced + [made.event.value];
      }
    case Take =>
      assert p.queue == [p.queue[0]] + p.queue[1..];
      assert (p.attempted + [p.queue[0]]) + p.queue[1..] == p.attempted + p.queue;
    case _ =>
  }

  lemma {:induction false} RunKeeps(fs: seq<Feed>, steps: seq<Step>, i: nat)
    requires IsRun(fs, steps) && i < |fs|
    ensures Inv(fs[i])
  {
    if i > 0 {
      RunKeeps(fs, steps, i - 1);
      StepKeeps(fs[i - 1], steps[i - 1]);
    }
  }

  /**
   * What was attempted and what is queued are together the first events produced, in order, so
   * the attempted sequence numbers are exactly 1 to k; nothing is missing until the stream is
   * closed; and failure is reported at most once, and never after close().
   */
  lemma GapFree(fs: seq<Feed>, steps: seq<Step>, i: nat)
    requires IsRun(fs, steps) && i < |fs|
    ensures fs[i].publisher.attempted + fs[i].publisher.queue <= fs[i].produced
    ensures !fs[i].publisher.closed ==> fs[i].publisher.attempted + fs[i].publisher.queue == fs[i].produced
    ensures forall j :: 0 <= j < |fs[i].publisher.attempted| ==> fs[i].publisher.attempted[j].sequence == j + 1
    ensures fs[i].publisher.failures <= 1
    ensures fs[i].closedAt.Some? ==> fs[i].publisher.failures == fs[i].closedAt.value
  {
    RunKeeps(fs, steps, i);
    var p := fs[i].publisher;
    forall j | 0 <= j < |p.attempted| ensures p.attempted[j].sequence == j + 1 {
      assert p.attempted[j] == (p.attempted + p.queue)[j];
    }
  }

  lemma ClosedStep(f: Feed, s: Step)
    requires Inv(f) && Enabled(f, s) && f.publisher.closed
    ensures Next(f, s).publisher.closed && Next(f, s).publisher.failures == f.publisher.failures
    ensures Next(f, s).publisher.attempted + Next(f, s).publisher.queue == f.publisher.attempted + f.publisher.queue
  {
    if s.Take? {
      assert f.publisher.queue == [f.publisher.queue[0]] + f.publisher.queue[1..];
    }
  }

  /**
   * The first event that is refused or that fails closes the stream for good: from then on no
   * event is accepted, and failure is not reported again.
   */
  lemma {:induction false} ClosesForGood(fs: seq<Feed>, steps: seq<Step>, i: nat, j: nat)
    requires IsRun(fs, steps) && i < j < |fs|
    requires fs[i].publisher.closed || (steps[i].Finish? && !steps[i].ok)
             || (steps[i].Produce? && T.Apply(fs[i].stream, steps[i].call).event.Some?
                 && Full(fs[i].publisher))
    ensures fs[j].publisher.closed && fs[j].publisher.failures == fs[i + 1].publisher.failures
    ensures fs[j].publisher.attempted + fs[j].publisher.queue
              == fs[i + 1].publisher.attempted + fs[i + 1].publisher.queue
    decreases j
  {
    RunKeeps(fs, steps, i);
    if j == i + 1 {
      if fs[i].publisher.closed { ClosedStep(fs[i], steps[i]); }
    } else {
      ClosesForGood(fs, steps, i, j - 1);
      RunKeeps(fs, steps, j - 1);
      ClosedStep(fs[j - 1], steps[j - 1]);
    }
  }

  // ----- every step, written out -----

  /** An event is refused only by a closed stream, or by a queue that is full, which closes it. */
  lemma EventsQueue(f: Feed, call: T.Call)
    ensures
      var event, p, q := T.Apply(f.stream, call).event, f.publisher, Next(f, Produce(call)).publisher;
      && q.sender == p.sender && q.attempted == p.attempted && q.capacity == p.capacity
      && (event.None? || p.closed ==> q == p)
      && (event.Some? && !p.closed ==>
            if p.capacity == 0 || |p.queue| < p.capacity
            then q.queue == p.queue + [event.value] && !q.closed && q.failures == p.failures
            else q.queue == p.queue && q.closed && q.failures == p.failures + 1)
  {
  }

  /** The sender takes the next event while the stream is open, and ends once it is closed. */
  lemma SenderGoesOn(f: Feed, s: Step)
    requires Enabled(f, s) && (s.Start? || s.Finish?)
    ensures
      var p, q := f.publisher, Next(f, s).publisher;
      && q.queue == p.queue && q.attempted == p.attempted
      && q.closed == (p.closed || (s.Finish? && !s.ok))
      && q.failures == p.failures + (if !p.closed && s.Finish? && !s.ok then 1 else 0)
      && q.sender == (if q.closed then Over else Getting)
  {
  }

  /** The states and steps of a stretch in which the sender only delivers. */
  ghost predicate Delivers(fs: seq<Feed>, steps: seq<Step>) {
    && |fs| == |steps| + 1
    && (forall i :: 0 <= i < |steps| ==>
          && (steps[i] == Take || steps[i] == Finish(true))
          && Enabled(fs[i], steps[i]) && fs[i + 1] == Next(fs[i], steps[i]))
  }

  /** While deliveries succeed, an open stream delivers everything it has produced. */
  lemma {:induction false} Drains(f: Feed) returns (fs: seq<Feed>, steps: seq<Step>)
    requires Inv(f) && !f.publisher.closed && f.publisher.sender.Getting?
    ensures Delivers(fs, steps) && fs[0] == f
    ensures fs[|steps|].publisher.attempted == f.produced && fs[|steps|].publisher.queue == []
    decreases |f.publisher.queue|
  {
    if f.publisher.queue == [] {
      fs, steps := [f], [];
      assert f.publisher.attempted + [] == f.publisher.attempted;
    } else {
      var g := Next(f, Take);
      var h := Next(g, Finish(true));
      StepKeeps(f, Take);
      StepKeeps(g, Finish(true));
      var later, rest := Drains(h);
      fs, steps := [f, g] + later, [Take, Finish(true)] + rest;
    }
  }
}
