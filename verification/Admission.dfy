/**
 * src/aida_agent/admission.py: which SIP leg the call is bound to, and which microphone
 * publications are subscribed.
 *
 * The room is the SDK's remote_participants, in dictionary order.  Every function is one
 * stretch of code without an await; the class SipAdmission of module SipAdmissions updates
 * the same state in place and is proved to take exactly these steps.
 */
module Admission {
  import opened Wrappers

  datatype Publication = Publication(sid: string, audio: bool, microphone: bool, track: bool)

  datatype Participant = Participant(
    identity: string, sid: string, sip: bool, attributes: map<string, string>, tracks: seq<Publication>)

  type Room = seq<Participant>

  datatype SipLeg = SipLeg(identity: string, sid: string, token: string)

  datatype AdmissionState = AdmissionState(
    attribute: string,
    changed: bool,              // asyncio.Event
    leg: Option<SipLeg>,
    closed: bool,
    authorized: bool,           // _audio_authorized
    requested: seq<string>,     // _audio_requested, by publication sid in insertion order
    connected: bool,            // _audio_connected
    subscribed: seq<string>,    // every set_subscribed(True) so far
    unsubscribed: seq<string>   // every set_subscribed(False) so far
  )

  /** A dictionary keyed by identity. */
  ghost predicate RoomOk(room: Room) {
    forall i, j :: 0 <= i < j < |room| ==> room[i].identity != room[j].identity
  }

  function Sips(room: Room): (r: seq<Participant>)
    ensures forall p :: p in r <==> p in room && p.sip
  {
    if room == [] then []
    else if room[0].sip then [room[0]] + Sips(room[1..]) else Sips(room[1..])
  }

  function Token(a: AdmissionState, p: Participant): Option<string> {
    if a.attribute in p.attributes then Some(p.attributes[a.attribute]) else None
  }

  /** validate() returns: exactly one SIP participant, and it is the bound leg. */
  predicate Valid(a: AdmissionState, room: Room) {
    && !a.closed && a.leg.Some?
    && var ps := Sips(room);
       |ps| == 1 && ps[0].identity == a.leg.value.identity && ps[0].sid == a.leg.value.sid
       && Token(a, ps[0]) == Some(a.leg.value.token)
  }

  /** Of any number of participants exactly one is a SIP participant, and it is the leg. */
  ghost predicate OnlyLeg(room: Room, leg: SipLeg, attribute: string) {
    exists k :: 0 <= k < |room| && OnlySip(room, k)
      && room[k].identity == leg.identity && room[k].sid == leg.sid
      && attribute in room[k].attributes && room[k].attributes[attribute] == leg.token
  }

  ghost predicate OnlySip(room: Room, k: int)
    requires 0 <= k < |room|
  {
    room[k].sip && forall m :: 0 <= m < |room| && room[m].sip ==> m == k
  }

  lemma {:induction false} NoSips(room: Room)
    ensures Sips(room) == [] <==> forall m :: 0 <= m < |room| ==> !room[m].sip
  {
    if room != [] { NoSips(room[1..]); }
  }

  lemma {:induction false} OneSip(room: Room, k: nat)
    requires k < |room| && OnlySip(room, k)
    ensures Sips(room) == [room[k]]
  {
    if k == 0 {
      NoSips(room[1..]);
    } else {
      assert !room[0].sip;
      assert OnlySip(room[1..], k - 1);
      OneSip(room[1..], k - 1);
    }
  }

  lemma {:induction false} SipsOne(room: Room) returns (k: nat)
    requires |Sips(room)| == 1
    ensures k < |room| && OnlySip(room, k) && Sips(room) == [room[k]]
  {
    if room[0].sip {
      NoSips(room[1..]);
      k := 0;
    } else {
      var m := SipsOne(room[1..]);
      k := m + 1;
      assert room[k] == room[1..][m];
    }
  }

  /** What validate() checks. */
  lemma ValidExactly(a: AdmissionState, room: Room)
    ensures Valid(a, room) <==> !a.closed && a.leg.Some? && OnlyLeg(room, a.leg.value, a.attribute)
  {
    if Valid(a, room) {
      var k := SipsOne(room);
    } else if a.leg.Some? && OnlyLeg(room, a.leg.value, a.attribute) {
      var k :| 0 <= k < |room| && OnlySip(room, k)
        && room[k].identity == a.leg.value.identity && room[k].sid == a.leg.value.sid
        && a.attribute in room[k].attributes && room[k].attributes[a.attribute] == a.leg.value.token;
      OneSip(room, k);
    }
  }

  /** What a handler did: the new state, and whether it called abort. */
  datatype Handled = Handled(state: AdmissionState, abort: bool)

  function Changed(a: AdmissionState, room: Room): Handled {
    Handled(a.(changed := true), a.leg.Some? && !Valid(a, room))
  }

  function Disconnected(a: AdmissionState, room: Room, sid: string): Handled {
    var h := Changed(a, room);
    h.(abort := h.abort || (a.leg.Some? && a.leg.value.sid == sid))
  }

  datatype WaitOutcome = Ambiguous | Bound | Suspended

  /** One turn of the loop in wait(). */
  function Wait(a: AdmissionState, room: Room): (AdmissionState, WaitOutcome) {
    var c := a.(changed := false);
    var ps := Sips(room);
    if |ps| > 1 then (c, Ambiguous)
    else if |ps| == 1 && Token(a, ps[0]).Some? then
      (c.(leg := Some(SipLeg(ps[0].identity, ps[0].sid, Token(a, ps[0]).value))), Bound)
    else (c, Suspended)
  }

  predicate BoundAudio(a: AdmissionState, pub: Publication, identity: string, sid: string) {
    a.leg.Some? && identity == a.leg.value.identity && sid == a.leg.value.sid
    && pub.audio && pub.microphone
  }

  /** failing: the publications whose set_subscribed call raises. */
  function TrackPublished(a: AdmissionState, room: Room, pub: Publication, p: Participant,
                          failing: set<string>): Handled {
    if a.closed || !a.authorized then Handled(a, false)
    else if !Valid(a, room) then Handled(a.(changed := true), true)
    else if BoundAudio(a, pub, p.identity, p.sid) && pub.sid !in a.requested then
      Handled(a.(requested := a.requested + [pub.sid], subscribed := a.subscribed + [pub.sid], changed := true),
              pub.sid in failing)
    else Handled(a.(changed := true), false)
  }

  function TrackSubscribed(a: AdmissionState, pub: Publication, p: Participant): Handled {
    Handled(if BoundAudio(a, pub, p.identity, p.sid) then a.(changed := true) else a, false)
  }

  function SubscriptionFailed(a: AdmissionState, sid: string, trackSid: string): Handled {
    Handled(a, !a.closed && a.leg.Some? && sid == a.leg.value.sid && trackSid in a.requested)
  }

  function TrackUnsubscribed(a: AdmissionState, pub: Publication, p: Participant): Handled {
    Handled(a, !a.closed && a.connected && BoundAudio(a, pub, p.identity, p.sid))
  }

  datatype AudioOutcome = Unavailable | Connected | Pending

  datatype Scanned = Scanned(state: AdmissionState, abort: bool, found: bool)

  /** The for loop of subscribe_audio over one participant's publications. */
  function Scan(a: AdmissionState, room: Room, p: Participant, pubs: seq<Publication>, failing: set<string>): Scanned
    decreases pubs
  {
    if pubs == [] then Scanned(a, false, false)
    else
      var h := TrackPublished(a, room, pubs[0], p, failing);
      if BoundAudio(a, pubs[0], p.identity, p.sid) && pubs[0].track then Scanned(h.state, h.abort, true)
      else
        var rest := Scan(h.state, room, p, pubs[1..], failing);
        rest.(abort := h.abort || rest.abort)
  }

  function Find(room: Room, identity: string): Option<Participant> {
    if room == [] then None
    else if room[0].identity == identity then Some(room[0]) else Find(room[1..], identity)
  }

  datatype Subscription = Subscription(state: AdmissionState, abort: bool, outcome: AudioOutcome)

  /** One turn of the loop in subscribe_audio(), after authorization. */
  function SubscribeTurn(a: AdmissionState, room: Room, failing: set<string>): Subscription {
    if a.closed then Subscription(a, false, Unavailable)
    else
      var c := a.(changed := false);
      if !Valid(c, room) then Subscription(c, false, Unavailable)
      else
        match Find(room, c.leg.value.identity)
        case None => Subscription(c, false, Unavailable)
        case Some(p) =>
          var s := Scan(c, room, p, p.tracks, failing);
          if s.found then Subscription(s.state.(connected := true), s.abort, Connected)
          else Subscription(s.state.(changed := false), s.abort, Pending)
  }

  /** The first part of subscribe_audio(). */
  function SubscribeAudio(a: AdmissionState, room: Room, failing: set<string>): Subscription {
    if !Valid(a, room) then Subscription(a, false, Unavailable)
    else SubscribeTurn(a.(authorized := true), room, failing)
  }

  function Close(a: AdmissionState): AdmissionState {
    if a.closed then a
    else a.(closed := true, unsubscribed := a.unsubscribed + a.requested, changed := true)
  }

  function Fresh(attribute: string): AdmissionState {
    AdmissionState(attribute, false, None, false, false, [], false, [], [])
  }

  // ----- what every step keeps -----

  ghost predicate Distinct(s: seq<string>) {
    forall i, j :: 0 <= i < j < |s| ==> s[i] != s[j]
  }

  /**
   * Each subscription was asked for once and after authorization, and closing takes back each
   * of them once.
   */
  ghost predicate Inv(a: AdmissionState) {
    && a.subscribed == a.requested && Distinct(a.requested)
    && (a.requested != [] ==> a.authorized)
    && (a.authorized ==> a.leg.Some?)
    && a.unsubscribed == (if a.closed then a.requested else [])
  }

  /** The step from a to b asked for nothing, or for one new microphone of the bound leg. */
  ghost predicate AsksProperly(a: AdmissionState, b: AdmissionState, pub: Publication, p: Participant) {
    || b.subscribed == a.subscribed
    || (&& b.subscribed == a.subscribed + [pub.sid] && pub.sid !in a.subscribed
        && a.authorized && !a.closed && BoundAudio(a, pub, p.identity, p.sid))
  }

  lemma TrackPublishedKeeps(a: AdmissionState, room: Room, pub: Publication, p: Participant, failing: set<string>)
    requires Inv(a)
    ensures Inv(TrackPublished(a, room, pub, p, failing).state)
    ensures AsksProperly(a, TrackPublished(a, room, pub, p, failing).state, pub, p)
  {
  }

  /** What the scan leaves alone, and what it has asked for by its end. */
  lemma {:induction false} ScanKeeps(a: AdmissionState, room: Room, p: Participant, pubs: seq<Publication>,
                                     failing: set<string>)
    requires Inv(a)
    ensures
      var s := Scan(a, room, p, pubs, failing);
      && Inv(s.state)
      && s.state.(changed := a.changed, requested := a.requested, subscribed := a.subscribed) == a
      && a.subscribed <= s.state.subscribed
      && (forall sid :: sid in s.state.subscribed && sid !in a.subscribed ==>
            a.authorized && !a.closed
            && exists q :: q in pubs && q.sid == sid && BoundAudio(a, q, p.identity, p.sid))
      && (a.authorized && !a.closed && Valid(a, room) && !s.found ==>
            forall q :: q in pubs && BoundAudio(a, q, p.identity, p.sid) ==> q.sid in s.state.requested && !q.track)
    decreases pubs
  {
    if pubs != [] {
      var h := TrackPublished(a, room, pubs[0], p, failing);
      TrackPublishedKeeps(a, room, pubs[0], p, failing);
      ScanKeeps(h.state, room, p, pubs[1..], failing);
      var s := Scan(a, room, p, pubs, failing);
      assert forall q :: BoundAudio(h.state, q, p.identity, p.sid) <==> BoundAudio(a, q, p.identity, p.sid);
      if a.authorized && !a.closed && Valid(a, room) && !s.found {
        forall q | q in pubs && BoundAudio(a, q, p.identity, p.sid) ensures q.sid in s.state.requested && !q.track {
          if q == pubs[0] {
            assert q.sid in h.state.requested;
            assert h.state.requested <= s.state.requested;
          } else {
            assert q in pubs[1..];
          }
        }
      }
    }
  }

  /** wait() would return or raise on this room. */
  ghost predicate WaitWouldAct(a: AdmissionState, room: Room) {
    var ps := Sips(room);
    |ps| > 1 || (|ps| == 1 && Token(a, ps[0]).Some?)
  }

  /** subscribe_audio() would return, raise, or ask for another publication on this room. */
  ghost predicate AudioWouldAct(a: AdmissionState, room: Room) { !Valid(a, room) || !AllSettled(a, room) }

  /** A bound microphone has been asked for and has no track yet. */
  predicate Settled(a: AdmissionState, p: Participant, q: Publication) {
    BoundAudio(a, q, p.identity, p.sid) ==> q.sid in a.requested && !q.track
  }

  ghost predicate AllSettled(a: AdmissionState, room: Room) {
    forall p, q {:trigger Settled(a, p, q)} :: p in room && q in p.tracks ==> Settled(a, p, q)
  }

  lemma {:induction false} FindIs(room: Room, identity: string)
    ensures Find(room, identity).Some? ==>
              Find(room, identity).value in room && Find(room, identity).value.identity == identity
    ensures RoomOk(room) ==> forall p :: p in room && p.identity == identity ==> Find(room, identity) == Some(p)
  {
    if room != [] && room[0].identity != identity {
      FindIs(room[1..], identity);
    } else if room != [] && RoomOk(room) {
      forall p | p in room && p.identity == identity ensures p == room[0] {
        var i :| 0 <= i < |room| && room[i] == p;
      }
    }
  }

  lemma SubscribeTurnKeeps(a: AdmissionState, room: Room, failing: set<string>)
    requires Inv(a) && a.authorized && RoomOk(room)
    ensures
      var s := SubscribeTurn(a, room, failing);
      && Inv(s.state) && s.state.authorized && s.state.leg == a.leg && s.state.closed == a.closed
      && s.state.attribute == a.attribute
      && (s.outcome.Pending? ==> !s.state.changed && !AudioWouldAct(s.state, room))
      && (s.outcome.Connected? ==> s.state.connected && Valid(s.state, room))
      && (!s.outcome.Connected? ==> s.state.connected == a.connected)
  {
    var c := a.(changed := false);
    if !a.closed && Valid(c, room) {
      FindIs(room, c.leg.value.identity);
      match Find(room, c.leg.value.identity)
      case None =>
      case Some(p) =>
        ScanKeeps(c, room, p, p.tracks, failing);
        var s := SubscribeTurn(a, room, failing);
        if s.outcome.Pending? {
          assert Valid(s.state, room);
          forall q, r | q in room && r in q.tracks ensures Settled(s.state, q, r) {
            if BoundAudio(s.state, r, q.identity, q.sid) {
              assert q == p;
              assert BoundAudio(c, r, p.identity, p.sid);
            }
          }
        }
    }
  }

  /** The room has a microphone of the bound leg, subscribed at this worker's request. */
  ghost predicate Hears(a: AdmissionState, room: Room) {
    exists p, q :: p in room && q in p.tracks && BoundAudio(a, q, p.identity, p.sid) && q.track && q.sid in a.subscribed
  }

  lemma {:induction false} ScanFinds(a: AdmissionState, room: Room, p: Participant, pubs: seq<Publication>,
                                     failing: set<string>)
    requires Inv(a) && a.authorized && Valid(a, room) && Scan(a, room, p, pubs, failing).found
    ensures
      var s := Scan(a, room, p, pubs, failing);
      exists q :: q in pubs && BoundAudio(a, q, p.identity, p.sid) && q.track && q.sid in s.state.subscribed
    decreases pubs
  {
    var h := TrackPublished(a, room, pubs[0], p, failing);
    TrackPublishedKeeps(a, room, pubs[0], p, failing);
    if BoundAudio(a, pubs[0], p.identity, p.sid) && pubs[0].track {
      assert pubs[0] in pubs;
    } else {
      ScanFinds(h.state, room, p, pubs[1..], failing);
      var q :| q in pubs[1..] && BoundAudio(h.state, q, p.identity, p.sid) && q.track
               && q.sid in Scan(h.state, room, p, pubs[1..], failing).state.subscribed;
      assert q in pubs && BoundAudio(a, q, p.identity, p.sid);
    }
  }

  /** subscribe_audio returns only when the bound microphone is subscribed and has its track. */
  lemma ConnectedHears(a: AdmissionState, room: Room, failing: set<string>)
    requires Inv(a) && a.authorized && SubscribeTurn(a, room, failing).outcome.Connected?
    ensures Hears(SubscribeTurn(a, room, failing).state, room)
  {
    var c := a.(changed := false);
    FindIs(room, c.leg.value.identity);
    var p := Find(room, c.leg.value.identity).value;
    ScanFinds(c, room, p, p.tracks, failing);
    ScanKeeps(c, room, p, p.tracks, failing);
    var s := SubscribeTurn(a, room, failing).state;
    var q :| q in p.tracks && BoundAudio(c, q, p.identity, p.sid) && q.track && q.sid in s.subscribed;
    assert BoundAudio(s, q, p.identity, p.sid);
  }

  lemma CloseKeeps(a: AdmissionState)
    requires Inv(a)
    ensures Inv(Close(a)) && Close(a).closed && Close(a).subscribed == a.subscribed
    ensures Close(a).unsubscribed == a.requested
    ensures Close(Close(a)) == Close(a)
  {
  }
}
