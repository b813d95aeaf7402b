/**
 * The handset transcript of src/aida_agent/transcripts.py: the events TranscriptStream makes,
 * and the one sender that delivers them.
 */
module Transcripts {
  import opened Wrappers
  import opened Text
  import Utf8
  import Json

  /** raw is the recognized or spoken text; Text() is what the packet carries of it. */
  datatype Event = Event(sequence: nat, segment: string, raw: string, final: bool, caller: bool) {
    function Text(): string { Utf8.Shorten(raw) }
  }

  datatype Stream = Stream(sequence: nat, callerSegment: Option<string>, callerText: string)

  const NEW_STREAM := Stream(0, None, "")

  /** A call of the stream: uuid is the one it would draw. */
  datatype Call =
    | Caller(text: string, final: bool, uuid: string)
    | Assistant(text: string, item: string)

  datatype Made = Made(stream: Stream, event: Option<Event>)

  /** _event */
  function Make(s: Stream, text: string, final: bool, segment: string, caller: bool): Made {
    if Blank(text) then Made(s, None)
    else
      Made(s.(sequence := s.sequence + 1),
           Some(Event(s.sequence + 1, segment, text, final, caller)))
  }

  function OnCaller(s: Stream, text: string, final: bool, uuid: string): Made {
    var segment := s.callerSegment.Some?;
    var s1 := if segment then s else s.(callerSegment := Some(uuid));
    var s2 := if !Blank(text) then s1.(callerText := text) else s1;
    var shown := if !Blank(text) then text else if final then s1.callerText else text;
    var made := Make(s2, shown, final, s2.callerSegment.value, true);
    if final then Made(made.stream.(callerSegment := None, callerText := ""), made.event) else made
  }

  function OnAssistant(s: Stream, text: string, item: string): Made {
    Make(s, text, true, "assistant-" + item, false)
  }

  function Apply(s: Stream, call: Call): Made {
    match call
    case Caller(text, final, uuid) => OnCaller(s, text, final, uuid)
    case Assistant(text, item) => OnAssistant(s, text, item)
  }

  // ----- a whole stream -----

  function After(calls: seq<Call>): Stream {
    if calls == [] then NEW_STREAM else Apply(After(calls[..|calls| - 1]), calls[|calls| - 1]).stream
  }

  function Events(calls: seq<Call>): seq<Event> {
    if calls == [] then []
    else
      var made := Apply(After(calls[..|calls| - 1]), calls[|calls| - 1]);
      Events(calls[..|calls| - 1]) + (if made.event.Some? then [made.event.value] else [])
  }

  /** Sequence numbers count the events from one, across both speakers. */
  lemma {:induction false} SequencesCount(calls: seq<Call>)
    ensures After(calls).sequence == |Events(calls)|
    ensures forall i :: 0 <= i < |Events(calls)| ==> Events(calls)[i].sequence == i + 1
  {
    if calls != [] {
      SequencesCount(calls[..|calls| - 1]);
    }
  }

  // ----- what the handset shows -----

  /** The handset's rule: the last text of a segment replaces the earlier ones. */
  function Display(events: seq<Event>): map<string, Event> {
    if events == [] then map[]
    else
      var last := events[|events| - 1];
      var before := Display(events[..|events| - 1]);
      if last.caller then before[last.segment := last] else before
  }

  /** A caller turn: the calls up to and including a final one. */
  datatype Turn = Turn(segment: string, last: Option<string>, closed: bool)

  predicate Open(turns: seq<Turn>) { turns != [] && !turns[|turns| - 1].closed }

  /** The turn a caller call belongs to: the open one, or a new one. */
  function Joined(turns: seq<Turn>, uuid: string): Turn {
    if Open(turns) then turns[|turns| - 1] else Turn(uuid, None, false)
  }

  function Earlier(turns: seq<Turn>): seq<Turn> {
    if Open(turns) then turns[..|turns| - 1] else turns
  }

  function TurnStep(turns: seq<Turn>, call: Call): seq<Turn> {
    match call
    case Assistant(_, _) => turns
    case Caller(text, final, uuid) =>
      var t := Joined(turns, uuid);
      Earlier(turns) + [Turn(t.segment, if Blank(text) then t.last else Some(text), final)]
  }

  function Turns(calls: seq<Call>): seq<Turn> {
    if calls == [] then [] else TurnStep(Turns(calls[..|calls| - 1]), calls[|calls| - 1])
  }

  /** uuid4 never repeats. */
  ghost predicate FreshOk(calls: seq<Call>) {
    forall i, j :: 0 <= i < j < |calls| && calls[i].Caller? && calls[j].Caller? ==> calls[i].uuid != calls[j].uuid
  }

  /** Segments are distinct, and only the last turn may be open. */
  ghost predicate TurnsOk(turns: seq<Turn>) {
    && (forall k, l :: 0 <= k < l < |turns| ==> turns[k].segment != turns[l].segment)
    && (forall k :: 0 <= k < |turns| - 1 ==> turns[k].closed)
  }

  ghost predicate Unused(turns: seq<Turn>, uuid: string) {
    forall k :: 0 <= k < |turns| ==> turns[k].segment != uuid
  }

  /** The stream remembers the open turn, if there is one. */
  ghost predicate Remembers(s: Stream, turns: seq<Turn>) {
    if Open(turns) then
      var t := turns[|turns| - 1];
      s.callerSegment == Some(t.segment) && s.callerText == (if t.last.Some? then t.last.value else "")
      && (t.last.Some? ==> !Blank(t.last.value))
    else s.callerSegment == None && s.callerText == ""
  }

  /** What the display shows of a turn. */
  ghost predicate ShowsTurn(display: map<string, Event>, t: Turn) {
    match t.last
    case None => t.segment !in display
    case Some(text) =>
      t.segment in display && display[t.segment].raw == text && display[t.segment].final == t.closed
  }

  /** One entry for each turn with text, and no other entry. */
  ghost predicate Shows(display: map<string, Event>, turns: seq<Turn>) {
    && (forall k :: 0 <= k < |turns| ==> ShowsTurn(display, turns[k]))
    && (forall segment :: segment in display ==> !Unused(turns, segment))
  }

  /** A caller call makes an event of its turn's segment, with the turn's last text if it is shown. */
  lemma CallerMakes(s: Stream, turns: seq<Turn>, text: string, final: bool, uuid: string)
    requires TurnsOk(turns) && Remembers(s, turns) && Unused(turns, uuid)
    ensures
      var made := OnCaller(s, text, final, uuid);
      var next := TurnStep(turns, Caller(text, final, uuid));
      var t := next[|next| - 1];
      && TurnsOk(next) && Remembers(made.stream, next)
      && (made.event.Some? ==>
            && made.event.value.caller && made.event.value.segment == t.segment
            && t.last.Some? && made.event.value.raw == t.last.value
            && made.event.value.final == t.closed)
      && (made.event.None? ==> Blank(text) && (t.last.Some? ==> !t.closed))
  {
  }

  lemma CallerShows(display: map<string, Event>, s: Stream, turns: seq<Turn>, text: string, final: bool, uuid: string)
    requires TurnsOk(turns) && Remembers(s, turns) && Unused(turns, uuid) && Shows(display, turns)
    ensures
      var made := OnCaller(s, text, final, uuid);
      Shows(if made.event.Some? then display[made.event.value.segment := made.event.value] else display,
            TurnStep(turns, Caller(text, final, uuid)))
  {
    CallerMakes(s, turns, text, final, uuid);
    var made := OnCaller(s, text, final, uuid);
    var next := TurnStep(turns, Caller(text, final, uuid));
    var after := if made.event.Some? then display[made.event.value.segment := made.event.value] else display;
    var n := |next| - 1;
    forall k | 0 <= k < |next| ensures ShowsTurn(after, next[k]) {
      if k < n {
        assert next[k] == turns[k] && next[k].segment != next[n].segment;
      } else if Open(turns) {
        assert ShowsTurn(display, turns[n]);
      }
    }
    forall segment | segment in after ensures !Unused(next, segment) {
      if segment == next[n].segment {
      } else {
        var k :| 0 <= k < |turns| && turns[k].segment == segment;
        assert next[k].segment == segment;
      }
    }
  }

  /** Every turn began at a call, whose uuid is its segment. */
  lemma {:induction false} TurnsFromCalls(calls: seq<Call>, uuid: string)
    requires forall i :: 0 <= i < |calls| && calls[i].Caller? ==> calls[i].uuid != uuid
    ensures Unused(Turns(calls), uuid)
  {
    if calls != [] {
      TurnsFromCalls(calls[..|calls| - 1], uuid);
    }
  }

  lemma {:induction false} TurnsHold(calls: seq<Call>)
    requires FreshOk(calls)
    ensures TurnsOk(Turns(calls)) && Remembers(After(calls), Turns(calls))
    ensures Shows(Display(Events(calls)), Turns(calls))
  {
    if calls != [] {
      var n := |calls| - 1;
      var before := calls[..n];
      TurnsHold(before);
      match calls[n]
      case Assistant(_, _) => DisplayStep(calls);
      case Caller(text, final, uuid) => TurnsHoldCaller(calls, text, final, uuid);
    }
  }

  lemma TurnsHoldCaller(calls: seq<Call>, text: string, final: bool, uuid: string)
    requires FreshOk(calls) && calls != [] && calls[|calls| - 1] == Caller(text, final, uuid)
    requires
      var before := calls[..|calls| - 1];
      TurnsOk(Turns(before)) && Remembers(After(before), Turns(before)) && Shows(Display(Events(before)), Turns(before))
    ensures TurnsOk(Turns(calls)) && Remembers(After(calls), Turns(calls))
    ensures Shows(Display(Events(calls)), Turns(calls))
  {
    var before := calls[..|calls| - 1];
    DisplayStep(calls);
    TurnsFromCalls(before, uuid);
    CallerMakes(After(before), Turns(before), text, final, uuid);
    CallerShows(Display(Events(before)), After(before), Turns(before), text, final, uuid);
  }

  lemma DisplayAppend(events: seq<Event>, e: Event)
    ensures Display(events + [e]) == (if e.caller then Display(events)[e.segment := e] else Display(events))
  {
    assert (events + [e])[..|events|] == events;
  }

  lemma DisplayStep(calls: seq<Call>)
    requires calls != []
    ensures
      var n := |calls| - 1;
      var shown := Display(Events(calls[..n]));
      var made := Apply(After(calls[..n]), calls[n]);
      Display(Events(calls))
      == (if made.event.Some? && made.event.value.caller
          then shown[made.event.value.segment := made.event.value] else shown)
  {
    var n := |calls| - 1;
    var before := Events(calls[..n]);
    var made := Apply(After(calls[..n]), calls[n]);
    if made.event.Some? {
      DisplayAppend(before, made.event.value);
    } else {
      assert before + [] == before;
    }
  }

  /** Nothing follows a segment's final event. */
  ghost predicate FinalsLast(events: seq<Event>) {
    forall i, j ::
      0 <= i < j < |events| && events[i].caller && events[j].caller && events[i].segment == events[j].segment ==>
        !events[i].final
  }

  /** A segment whose final event has been made is shown as final. */
  lemma {:induction false} DisplayHolds(events: seq<Event>, i: nat)
    requires i < |events| && events[i].caller && FinalsLast(events)
    ensures events[i].segment in Display(events)
    ensures events[i].final ==> Display(events)[events[i].segment].final
  {
    var n := |events| - 1;
    if i < n {
      assert events[..n][i] == events[i];
      DisplayHolds(events[..n], i);
    }
  }

  lemma FinalsStep(events: seq<Event>, turns: seq<Turn>, s: Stream, text: string, final: bool, uuid: string)
    requires TurnsOk(turns) && Remembers(s, turns) && Unused(turns, uuid)
    requires Shows(Display(events), turns) && FinalsLast(events)
    requires OnCaller(s, text, final, uuid).event.Some?
    ensures FinalsLast(events + [OnCaller(s, text, final, uuid).event.value])
  {
    CallerMakes(s, turns, text, final, uuid);
    var e := OnCaller(s, text, final, uuid).event.value;
    forall i | 0 <= i < |events| && events[i].caller && events[i].segment == e.segment ensures !events[i].final {
      DisplayHolds(events, i);
      if Open(turns) {
        assert ShowsTurn(Display(events), turns[|turns| - 1]);
      }
    }
  }

  /**
   * The handset shows one entry for each caller turn that had any text, with the last text of
   * the turn, final exactly when the turn has ended; and nothing follows a segment's final
   * event, also when the recognizer's terminal event is empty.
   */
  lemma HandsetShowsTurns(calls: seq<Call>)
    requires FreshOk(calls)
    ensures Shows(Display(Events(calls)), Turns(calls)) && TurnsOk(Turns(calls))
    ensures FinalsLast(Events(calls))
  {
    TurnsHold(calls);
    FinalsHold(calls);
  }

  lemma {:induction false} FinalsHold(calls: seq<Call>)
    requires FreshOk(calls)
    ensures FinalsLast(Events(calls))
  {
    if calls != [] {
      var n := |calls| - 1;
      var before := calls[..n];
      FinalsHold(before);
      TurnsHold(before);
      match calls[n]
      case Assistant(_, _) =>
      case Caller(text, final, uuid) =>
        TurnsFromCalls(before, uuid);
        if OnCaller(After(before), text, final, uuid).event.Some? {
          FinalsStep(Events(before), Turns(before), After(before), text, final, uuid);
        }
    }
  }

  // ----- the size of a packet's text -----

  /** json.dumps(ensure_ascii=False) of one character. */
  function EscapeChar(c: char): string {
    if Json.Short(c).Some? then ['\\', Json.Short(c).value]
    else if (c as int) < 0x20 then Json.Unit(c as int)
    else [c]
  }

  function Escape(s: string): string {
    if s == "" then "" else EscapeChar(s[0]) + Escape(s[1..])
  }

  lemma {:induction false} EncodeAppend(s: string, t: string)
    ensures Utf8.Encode(s + t) == Utf8.Encode(s) + Utf8.Encode(t)
  {
    if s == "" {
      assert s + t == t;
    } else {
      assert (s + t)[1..] == s[1..] + t;
      EncodeAppend(s[1..], t);
    }
  }

  lemma EscapedWidth(c: char)
    requires !Utf8.Control(c)
    ensures |Utf8.Encode(EscapeChar(c))| <= 2 * Utf8.Width(c)
  {
    var e := EscapeChar(c);
    if Json.Short(c).Some? {
      var d := Json.Short(c).value;
      assert e[1..] == [d] && [d][1..] == "";
      assert Utf8.Width('\\') == 1 && Utf8.Width(d) == 1;
      assert Utf8.Encode([d]) == Utf8.EncodeChar(d) + Utf8.Encode("");
    } else {
      assert e == [c] && [c][1..] == "";
    }
  }

  lemma {:induction false} EscapedLength(s: string)
    requires forall c :: c in s ==> !Utf8.Control(c)
    ensures |Utf8.Encode(Escape(s))| <= 2 * |Utf8.Encode(s)|
  {
    if s != "" {
      EscapedWidth(s[0]);
      EscapedLength(s[1..]);
      EncodeAppend(EscapeChar(s[0]), Escape(s[1..]));
    }
  }

  /**
   * What the handset is sent of a text: the longest prefix of the cleaned text that fits in
   * 6,000 bytes, at most 12,000 bytes once escaped in the JSON packet.
   */
  lemma SentText(e: Event)
    ensures e.Text() <= Utf8.Clean(e.raw) && |Utf8.Encode(e.Text())| <= 6000
    ensures forall k: nat :: k <= |Utf8.Clean(e.raw)| && |Utf8.Encode(Utf8.Clean(e.raw)[..k])| <= 6000 ==>
              k <= |e.Text()|
    ensures |Utf8.Encode(Escape(e.Text()))| <= 12000
  {
    Utf8.TruncateIsLongestPrefix(Utf8.Clean(e.raw));
    var t := Utf8.Truncate(Utf8.Clean(e.raw));
    assert forall c :: c in t ==> c in Utf8.Clean(e.raw);
    EscapedLength(t);
  }

  // ----- the events, written out -----

  /** Assistant text that is not blank is one final event of its item's segment; the turn is not touched. */
  lemma AssistantMakes(s: Stream, text: string, item: string)
    ensures
      var made := OnAssistant(s, text, item);
      if exists c :: c in text && !IsSpace(c) then
        && made.event == Some(Event(s.sequence + 1, "assistant-" + item, text, true, false))
        && made.stream == s.(sequence := s.sequence + 1)
      else made == Made(s, None)
  {
  }

  /**
   * A caller result makes an event of the open segment or a new one: its own text, or for an empty
   * final the last text of the turn; and a final result closes the segment.
   */
  lemma CallerMakesEvent(s: Stream, text: string, final: bool, uuid: string)
    requires s.callerSegment.None? ==> s.callerText == ""
    requires s.callerText == "" || exists c :: c in s.callerText && !IsSpace(c)
    ensures
      var made := OnCaller(s, text, final, uuid);
      var segment := if s.callerSegment.Some? then s.callerSegment.value else uuid;
      var heard := exists c :: c in text && !IsSpace(c);
      && made.event
         == (if heard then Some(Event(s.sequence + 1, segment, text, final, true))
             else if final && s.callerText != "" then Some(Event(s.sequence + 1, segment, s.callerText, true, true))
             else None)
      && made.stream.sequence == s.sequence + (if made.event.Some? then 1 else 0)
      && made.stream.callerSegment == (if final then None else Some(segment))
      && made.stream.callerText == (if final then "" else if heard then text else s.callerText)
  {
  }
}
