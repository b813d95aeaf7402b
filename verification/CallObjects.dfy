/**
 * The session callbacks of src/aida_agent/worker.py over the objects they share.  Their contracts
 * are the steps OnCaller and OnItem of module Calls, part by part.
 */
module CallObjects {
  import opened Wrappers
  import Calls
  import W = Worker
  import H = History
  import T = Transcripts
  import P = Publisher
  import Jobs
  import HandsetTranscript
  import TranscriptHistories

  class TranscribedCall {
    const job: Jobs.Job
    const stream: HandsetTranscript.TranscriptStream
    const publisher: HandsetTranscript.TranscriptPublisher
    const history: TranscriptHistories.TranscriptHistory

    constructor (job: Jobs.Job, callId: string, roomName: string)
      ensures this.job == job && fresh(stream) && fresh(publisher) && fresh(history)
      ensures stream.State() == T.NEW_STREAM && publisher.State() == P.Fresh(Calls.CAPACITY)
      ensures history.History() == H.NEW_HISTORY
    {
      this.job := job;
      stream := new HandsetTranscript.TranscriptStream();
      publisher := new HandsetTranscript.TranscriptPublisher(Calls.CAPACITY);
      history := new TranscriptHistories.TranscriptHistory(callId, roomName);
    }

    method Forwards() returns (forwards: bool)
      ensures forwards == Calls.Forwards(job.State())
    {
      return job.control.ready && !job.aborted && !job.control.stopping;
    }

    /** publisher.enqueue, whose on_failure is abort. */
    method Publish(event: Option<T.Event>)
      requires job.Valid()
      modifies job, job.session, publisher
      ensures job.Valid() && job.session == old(job.session)
      ensures publisher.State() == P.Enqueue(old(publisher.State()), event)
      ensures job.State() == W.AbortIf(old(job.State()), publisher.failures > old(publisher.failures))
    {
      var before := publisher.failures;
      publisher.Enqueue(event);
      if publisher.failures > before {
        job.Abort();
      }
    }

    /** user_input_transcribed */
    method OnCaller(text: string, final: bool, uuid: string, segment: string)
      requires job.Valid()
      modifies job, job.session, stream, publisher, history
      ensures job.Valid() && job.session == old(job.session)
      ensures job.State() == W.AbortIf(old(job.State()), publisher.failures > old(publisher.failures))
      ensures
        if Calls.Forwards(old(job.State())) then
          var made := T.OnCaller(old(stream.State()), text, final, uuid);
          && stream.State() == made.stream
          && publisher.State() == P.Enqueue(old(publisher.State()), made.event)
          && history.History() == H.Caller(old(history.History()), text, final, segment).state
        else
          && stream.State() == old(stream.State()) && publisher.State() == old(publisher.State())
          && history.History() == old(history.History())
    {
      var forwards := Forwards();
      if forwards {
        var event := stream.Caller(text, final, uuid);
        Publish(event);
        history.Caller(text, final, segment);
      }
    }

    /** conversation_item_added */
    method OnItem(item: H.Item)
      requires job.Valid()
      modifies job, job.session, stream, publisher, history
      ensures job.Valid() && job.session == old(job.session)
      ensures job.State() == W.AbortIf(old(job.State()), publisher.failures > old(publisher.failures))
      ensures
        history.History() == if Calls.Forwards(old(job.State())) then H.OnItem(old(history.History()), item).state
                             else old(history.History())
      ensures
        if Calls.Forwards(old(job.State())) && item.role.Assistant? then
          var made := T.OnAssistant(old(stream.State()), item.text, item.id);
          stream.State() == made.stream && publisher.State() == P.Enqueue(old(publisher.State()), made.event)
        else stream.State() == old(stream.State()) && publisher.State() == old(publisher.State())
    {
      var forwards := Forwards();
      if forwards {
        history.Item(item);
      }
      forwards := Forwards();
      if forwards && item.role.Assistant? {
        var event := stream.Assistant(item.text, item.id);
        Publish(event);
      }
    }
  }
}
