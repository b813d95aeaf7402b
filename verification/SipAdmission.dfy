/**
 * The SipAdmission of src/aida_agent/admission.py, updating its fields in place.  Its contracts
 * are the steps of module Admission; abort is the callback given to the constructor, reported
 * as a result because the worker owns what it does.
 */
module SipAdmissions {
  import opened Wrappers
  import A = Admission

  class SipAdmission {
    const attribute: string
    var changed: bool
    var leg: Option<A.SipLeg>
    var closed: bool
    var audioAuthorized: bool
    var audioRequested: seq<string>
    var audioConnected: bool
    var subscribed: seq<string>
    var unsubscribed: seq<string>

    constructor (attribute: string)
      ensures State() == A.Fresh(attribute)
    {
      this.attribute := attribute;
      changed, leg, closed := false, None, false;
      audioAuthorized, audioRequested, audioConnected := false, [], false;
      subscribed, unsubscribed := [], [];
    }

    function State(): A.AdmissionState
      reads this
    {
      A.AdmissionState(attribute, changed, leg, closed, audioAuthorized, audioRequested, audioConnected,
                       subscribed, unsubscribed)
    }

    /** _participants: a comprehension over the room's dictionary. */
    method Participants(room: A.Room) returns (ps: seq<A.Participant>)
      ensures ps == A.Sips(room)
    {
      ps := [];
      var i := |room|;
      while i > 0
        invariant 0 <= i <= |room| && ps == A.Sips(room[i..])
      {
        i := i - 1;
        if room[i].sip {
          ps := [room[i]] + ps;
        }
        assert room[i..][1..] == room[i + 1..];
      }
      assert room[0..] == room;
    }

    method Validate(room: A.Room) returns (valid: bool)
      ensures valid == A.Valid(State(), room)
      ensures valid <==> !closed && leg.Some? && A.OnlyLeg(room, leg.value, attribute)
    {
      A.ValidExactly(State(), room);
      var ps := Participants(room);
      if closed || leg.None? || |ps| != 1 {
        return false;
      }
      var p := ps[0];
      return p.identity == leg.value.identity && p.sid == leg.value.sid
             && attribute in p.attributes && p.attributes[attribute] == leg.value.token;
    }

    method Changed(room: A.Room) returns (abort: bool)
      modifies this
      ensures State() == A.Changed(old(State()), room).state && abort == A.Changed(old(State()), room).abort
    {
      changed := true;
      abort := false;
      if leg.Some? {
        var valid := Validate(room);
        abort := !valid;
        assert A.Valid(State(), room) == A.Valid(old(State()), room);
      }
    }

    method Disconnected(room: A.Room, sid: string) returns (abort: bool)
      modifies this
      ensures State() == A.Disconnected(old(State()), room, sid).state
      ensures abort == A.Disconnected(old(State()), room, sid).abort
    {
      var leaving := leg.Some? && sid == leg.value.sid;
      var invalid := Changed(room);
      abort := leaving || invalid;
    }

    /** One turn of the loop in wait(). */
    method Wait(room: A.Room) returns (outcome: A.WaitOutcome)
      modifies this
      ensures (State(), outcome) == A.Wait(old(State()), room)
    {
      changed := false;
      var ps := Participants(room);
      if |ps| > 1 {
        return A.Ambiguous;
      }
      if |ps| == 1 && attribute in ps[0].attributes {
        leg := Some(A.SipLeg(ps[0].identity, ps[0].sid, ps[0].attributes[attribute]));
        return A.Bound;
      }
      return A.Suspended;
    }

    method TrackPublished(room: A.Room, pub: A.Publication, p: A.Participant, failing: set<string>)
      returns (abort: bool)
      modifies this
      ensures State() == A.TrackPublished(old(State()), room, pub, p, failing).state
      ensures abort == A.TrackPublished(old(State()), room, pub, p, failing).abort
    {
      abort := false;
      if closed || !audioAuthorized {
        return;
      }
      var valid := Validate(room);
      if !valid {
        abort := true;
      } else if A.BoundAudio(State(), pub, p.identity, p.sid) && pub.sid !in audioRequested {
        audioRequested := audioRequested + [pub.sid];
        subscribed := subscribed + [pub.sid];
        abort := pub.sid in failing;
      }
      changed := true;
    }

    method TrackSubscribed(pub: A.Publication, p: A.Participant)
      modifies this
      ensures State() == A.TrackSubscribed(old(State()), pub, p).state
    {
      if A.BoundAudio(State(), pub, p.identity, p.sid) {
        changed := true;
      }
    }

    /** The for loop of subscribe_audio. */
    method Scan(room: A.Room, p: A.Participant, failing: set<string>) returns (abort: bool, found: bool)
      modifies this
      ensures A.Scanned(State(), abort, found) == A.Scan(old(State()), room, p, p.tracks, failing)
    {
      abort, found := false, false;
      var i := 0;
      assert p.tracks[0..] == p.tracks;
      while i < |p.tracks|
        invariant 0 <= i <= |p.tracks|
        invariant A.Scan(old(State()), room, p, p.tracks, failing)
                  == var rest := A.Scan(State(), room, p, p.tracks[i..], failing); rest.(abort := abort || rest.abort)
      {
        assert p.tracks[i..][1..] == p.tracks[i + 1..];
        ghost var before := State();
        var published := TrackPublished(room, p.tracks[i], p, failing);
        abort := abort || published;
        assert A.BoundAudio(State(), p.tracks[i], p.identity, p.sid)
            == A.BoundAudio(before, p.tracks[i], p.identity, p.sid);
        if A.BoundAudio(State(), p.tracks[i], p.identity, p.sid) && p.tracks[i].track {
          found := true;
          return;
        }
        i := i + 1;
      }
    }

    /** One turn of the loop in subscribe_audio(). */
    method SubscribeTurn(room: A.Room, failing: set<string>) returns (abort: bool, outcome: A.AudioOutcome)
      modifies this
      ensures A.Subscription(State(), abort, outcome) == A.SubscribeTurn(old(State()), room, failing)
    {
      if closed {
        return false, A.Unavailable;
      }
      changed := false;
      var valid := Validate(room);
      if !valid {
        return false, A.Unavailable;
      }
      var participant := A.Find(room, leg.value.identity);
      if participant.None? {
        return false, A.Unavailable;
      }
      var found;
      abort, found := Scan(room, participant.value, failing);
      if found {
        audioConnected := true;
        return abort, A.Connected;
      }
      changed := false;
      return abort, A.Pending;
    }

    /** subscribe_audio up to its first await. */
    method SubscribeAudio(room: A.Room, failing: set<string>) returns (abort: bool, outcome: A.AudioOutcome)
      modifies this
      ensures A.Subscription(State(), abort, outcome) == A.SubscribeAudio(old(State()), room, failing)
    {
      var valid := Validate(room);
      if !valid {
        return false, A.Unavailable;
      }
      audioAuthorized := true;
      abort, outcome := SubscribeTurn(room, failing);
    }

    method SubscriptionFailed(sid: string, trackSid: string) returns (abort: bool)
      ensures A.Handled(State(), abort) == A.SubscriptionFailed(State(), sid, trackSid)
    {
      return !closed && leg.Some? && sid == leg.value.sid && trackSid in audioRequested;
    }

    method TrackUnsubscribed(pub: A.Publication, p: A.Participant) returns (abort: bool)
      ensures A.Handled(State(), abort) == A.TrackUnsubscribed(State(), pub, p)
    {
      return !closed && audioConnected && A.BoundAudio(State(), pub, p.identity, p.sid);
    }

    method Close()
      modifies this
      ensures State() == A.Close(old(State()))
    {
      if !closed {
        closed := true;
        var i := 0;
        while i < |audioRequested|
          modifies this`unsubscribed
          invariant 0 <= i <= |audioRequested|
          invariant unsubscribed == old(unsubscribed) + audioRequested[..i]
        {
          unsubscribed := unsubscribed + [audioRequested[i]];
          i := i + 1;
        }
        assert audioRequested[..i] == audioRequested;
        changed := true;
      }
    }
  }
}
