/**
 * The classes of src/aida_agent/transcripts.py, updating their fields in place.  Their contracts
 * are the steps of modules Transcripts and Publisher.
 */
module HandsetTranscript {
  import opened Wrappers
  import opened Text
  import T = Transcripts
  import P = Publisher

  class TranscriptStream {
    var sequence: nat
    var callerSegment: Option<string>
    var callerText: string

    constructor ()
      ensures State() == T.NEW_STREAM
    {
      sequence, callerSegment, callerText := 0, None, "";
    }

    function State(): T.Stream
      reads this
    {
      T.Stream(sequence, callerSegment, callerText)
    }

    /** _event */
    method Make(text: string, final: bool, segment: string, caller: bool) returns (event: Option<T.Event>)
      modifies this`sequence
      ensures T.Made(State(), event) == T.Make(old(State()), text, final, segment, caller)
    {
      StripBlank(text);
      if Strip(text) == "" {
        return None;
      }
      sequence := sequence + 1;
      return Some(T.Event(sequence, segment, text, final, caller));
    }

    /** uuid is the one that would be drawn. */
    method Caller(text: string, final: bool, uuid: string) returns (event: Option<T.Event>)
      modifies this
      ensures T.Made(State(), event) == T.OnCaller(old(State()), text, final, uuid)
    {
      if callerSegment.None? {
        callerSegment := Some(uuid);
      }
      var shown := text;
      StripBlank(text);
      if Strip(text) != "" {
        callerText := text;
      } else if final {
        shown := callerText;
      }
      event := Make(shown, final, callerSegment.value, true);
      if final {
        callerSegment := None;
        callerText := "";
      }
    }

    method Assistant(text: string, item: string) returns (event: Option<T.Event>)
      modifies this
      ensures T.Made(State(), event) == T.OnAssistant(old(State()), text, item)
    {
      event := Make(text, true, "assistant-" + item, false);
    }
  }

  class TranscriptPublisher {
    var queue: seq<T.Event>
    const capacity: nat
    var closed: bool
    var sender: P.Sender          // where the task running _run is suspended
    var attempted: seq<T.Event>   // what publish_data was called with
    var failures: nat             // calls of on_failure

    constructor (capacity: nat)
      ensures State() == P.Fresh(capacity)
    {
      queue, closed, sender, attempted, failures := [], false, P.Unstarted, [], 0;
      this.capacity := capacity;
    }

    function State(): P.PublisherState
      reads this
    {
      P.PublisherState(queue, capacity, closed, sender, attempted, failures)
    }

    method Fail()
      modifies this`closed, this`failures
      ensures State() == P.Fail(old(State()))
    {
      if !closed {
        closed := true;
        failures := failures + 1;
      }
    }

    method Enqueue(event: Option<T.Event>)
      modifies this
      ensures State() == P.Enqueue(old(State()), event)
    {
      if event.None? || closed {
        return;
      }
      if 0 < capacity <= |queue| {
        Fail();
      } else {
        queue := queue + [event.value];
      }
    }

    /** The head of the loop in _run, up to queue.get(). */
    method Loop()
      modifies this`sender
      ensures State() == P.Loop(old(State()))
    {
      sender := if closed then P.Over else P.Getting;
    }

    /** queue.get() returns, and publish_data is called. */
    method Get()
      requires queue != []
      modifies this
      ensures State() == P.Get(old(State()))
    {
      var event := queue[0];
      queue := queue[1..];
      attempted := attempted + [event];
      sender := P.Sending(event);
    }

    /** publish_data returned, or raised or timed out. */
    method Sent(ok: bool)
      modifies this
      ensures State() == P.Sent(old(State()), ok)
    {
      if !ok {
        Fail();
      }
      Loop();
    }

    method Close()
      modifies this
      ensures State() == P.Close(old(State()))
    {
      closed := true;
      sender := P.Over;
    }
  }
}
