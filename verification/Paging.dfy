/**
 * The paged transfer of src/aida_agent/transcript_history.py: get_transcript freezes one text
 * for each observer and hands it out in pieces.
 */
module Paging {
  import opened Wrappers

  const PAGE_CHARS: nat := 6000
  const MAX_SNAPSHOT_CHARS: nat := 2 * 1024 * 1024
  const MAX_TRANSFERS: nat := 32
  const LIFETIME_MS: int := 60000

  datatype Frozen = Frozen(at: int, token: string, text: string)

  type Snapshots = map<string, Frozen>

  /** A payload: rejected by the JSON and type checks, or an offset and perhaps a snapshot id. */
  datatype Request = Malformed | Request(offset: int, snapshotId: Option<string>)

  datatype Reply = Page(token: string, text: string, next: Option<nat>) | RpcError(code: int)

  /**
   * One call: who asks, whether it is authorized and the call is available, when, the uuid that
   * would be drawn, and the snapshot text of that moment.
   */
  datatype Ask = Ask(identity: string, allowed: bool, request: Request, now: int, uuid: string, current: string)

  function Prune(s: Snapshots, now: int): Snapshots {
    map id | id in s && now - s[id].at < LIFETIME_MS :: s[id]
  }

  datatype Outcome = Outcome(snapshots: Snapshots, reply: Reply)

  function Serve(s: Snapshots, a: Ask, offset: nat): Outcome {
    if a.identity !in s || offset >= |s[a.identity].text|
       || (offset != 0 && a.request != Request(offset, Some(s[a.identity].token)))
    then Outcome(s, RpcError(2002))
    else
      var f := s[a.identity];
      var end := if offset + PAGE_CHARS < |f.text| then offset + PAGE_CHARS else |f.text|;
      if end < |f.text| then Outcome(s, Page(f.token, f.text[offset..end], Some(end)))
      else Outcome(s - {a.identity}, Page(f.token, f.text[offset..end], None))
  }

  function Answer(s: Snapshots, a: Ask): Outcome {
    if !a.allowed then Outcome(s, RpcError(2001))
    else if a.request.Malformed? || a.request.offset < 0 then Outcome(s, RpcError(2002))
    else
      var kept := Prune(s, a.now);
      if a.request.offset == 0 then
        if |a.current| > MAX_SNAPSHOT_CHARS then Outcome(kept, RpcError(2003))
        else if |kept| >= MAX_TRANSFERS && a.identity !in kept then Outcome(kept, RpcError(2004))
        else Serve(kept[a.identity := Frozen(a.now, a.uuid, a.current)], a, 0)
      else Serve(kept, a, a.request.offset)
  }

  // ----- every answer, written out -----

  /** The observer's text was frozen less than 60 s ago. */
  predicate Alive(s: Snapshots, id: string, now: int) { id in s && now - s[id].at < 60000 }

  function AliveSet(s: Snapshots, now: int): set<string> { set id | id in s && now - s[id].at < 60000 }

  lemma PruneSize(s: Snapshots, now: int)
    ensures |Prune(s, now)| == |AliveSet(s, now)|
  {
    assert Prune(s, now).Keys == AliveSet(s, now);
  }

  /** The reply to a first call: too long, too many transfers, or a new text and its first page. */
  lemma FirstAnswer(s: Snapshots, a: Ask)
    requires a.allowed && a.request.Request? && a.request.offset == 0
    ensures
      var n := |a.current|;
      Answer(s, a).reply
      == if n > 2097152 then RpcError(2003)
         else if |AliveSet(s, a.now)| >= 32 && !Alive(s, a.identity, a.now) then RpcError(2004)
         else if n == 0 then RpcError(2002)
         else if n <= 6000 then Page(a.uuid, a.current, None)
         else Page(a.uuid, a.current[..6000], Some(6000))
  {
    PruneSize(s, a.now);
    assert a.current[0..|a.current|] == a.current;
  }

  /**
   * The reply to a later call: the next piece of the observer's own text while that is less than
   * 60 s old, for its token and an offset inside it; anything else is refused as expired.
   */
  lemma LaterAnswer(s: Snapshots, a: Ask)
    requires a.allowed && a.request.Request? && a.request.offset > 0
    ensures
      var o := a.request.offset;
      Answer(s, a).reply
      == if Alive(s, a.identity, a.now) && o < |s[a.identity].text|
            && a.request.snapshotId == Some(s[a.identity].token)
         then
           var text := s[a.identity].text;
           if |text| - o > 6000 then Page(s[a.identity].token, text[o..o + 6000], Some(o + 6000))
           else Page(s[a.identity].token, text[o..], None)
         else RpcError(2002)
  {
  }

  /** Requests that are not allowed or not understood are refused and leave everything as it was. */
  lemma Refused(s: Snapshots, a: Ask)
    requires !a.allowed || a.request.Malformed? || a.request.offset < 0
    ensures Answer(s, a) == Outcome(s, RpcError(if a.allowed then 2002 else 2001))
  {
  }

  /**
   * What is stored after an understood call: every other observer's text for 60 s; and this
   * observer's, unless this call gave its last page.
   */
  lemma StoredAfter(s: Snapshots, a: Ask, id: string)
    requires a.allowed && a.request.Request? && a.request.offset >= 0
    ensures
      var t, reply := Answer(s, a).snapshots, Answer(s, a).reply;
      && (id != a.identity ==> (id in t <==> Alive(s, id, a.now)) && (id in t ==> t[id] == s[id]))
      && (reply.Page? ==> (a.identity in t <==> reply.next.Some?))
      && (reply.Page? && reply.next.Some? ==>
            t[a.identity] == if a.request.offset == 0 then Frozen(a.now, a.uuid, a.current) else s[a.identity])
      && (reply.RpcError? && a.current != "" ==>
            (a.identity in t <==> Alive(s, a.identity, a.now))
            && (a.identity in t ==> t[a.identity] == s[a.identity]))
  {
  }

  // ----- runs -----

  /** A stored transfer, and what each uuid was drawn for. */
  datatype State = State(snapshots: Snapshots, drawn: map<string, Frozen>, owners: map<string, string>)

  /** The call freezes a new text. */
  predicate Freezes(s: Snapshots, a: Ask) {
    && a.allowed && a.request.Request? && a.request.offset == 0 && |a.current| <= MAX_SNAPSHOT_CHARS
    && (|Prune(s, a.now)| < MAX_TRANSFERS || a.identity in Prune(s, a.now))
  }

  function Next(s: State, a: Ask): State {
    var snapshots := Answer(s.snapshots, a).snapshots;
    if Freezes(s.snapshots, a) then
      State(snapshots, s.drawn[a.uuid := Frozen(a.now, a.uuid, a.current)], s.owners[a.uuid := a.identity])
    else s.(snapshots := snapshots)
  }

  ghost predicate StepAt(ss: seq<State>, asks: seq<Ask>, i: nat)
    requires |ss| == |asks| + 1 && i < |asks|
  {
    asks[i].uuid !in ss[i].drawn && ss[i + 1] == Next(ss[i], asks[i])
  }

  /** Any interleaving of calls; uuids are fresh. */
  ghost predicate IsRun(ss: seq<State>, asks: seq<Ask>) {
    && |ss| == |asks| + 1 && ss[0] == State(map[], map[], map[])
    && (forall i: nat {:trigger StepAt(ss, asks, i)} :: i < |asks| ==> StepAt(ss, asks, i))
  }

  /** The reply to call i. */
  function ReplyAt(ss: seq<State>, asks: seq<Ask>, i: nat): Reply
    requires i < |asks| && i < |ss|
  {
    Answer(ss[i].snapshots, asks[i]).reply
  }

  /** A stored text is the one drawn for its token, by the observer it is stored for. */
  ghost predicate StoredFor(s: State, id: string, f: Frozen) {
    && f.token in s.drawn && s.drawn[f.token] == f && f.token in s.owners && s.owners[f.token] == id
    && |f.text| <= MAX_SNAPSHOT_CHARS
  }

  ghost predicate Inv(s: State) {
    && (forall id :: id in s.snapshots ==> StoredFor(s, id, s.snapshots[id]))
    && s.drawn.Keys == s.owners.Keys
    && |s.snapshots| <= MAX_TRANSFERS
  }

  lemma {:induction false} SubsetSize(a: set<string>, b: set<string>)
    requires a <= b
    ensures |a| <= |b|
  {
    if a != {} {
      var x :| x in a;
      SubsetSize(a - {x}, b - {x});
    }
  }

  lemma SizeOfKeys(m: Snapshots, n: Snapshots)
    requires m.Keys <= n.Keys
    ensures |m| <= |n|
  {
    SubsetSize(m.Keys, n.Keys);
    assert |m| == |m.Keys| && |n| == |n.Keys|;
  }

  lemma StepSize(s: State, a: Ask)
    requires |s.snapshots| <= MAX_TRANSFERS
    ensures |Next(s, a).snapshots| <= MAX_TRANSFERS
  {
    var kept := Prune(s.snapshots, a.now);
    SizeOfKeys(kept, s.snapshots);
    if Freezes(s.snapshots, a) {
      var added := kept[a.identity := Frozen(a.now, a.uuid, a.current)];
      assert added.Keys == kept.Keys + {a.identity};
      if a.identity in kept { SizeOfKeys(added, kept); }
      SizeOfKeys(Next(s, a).snapshots, added);
    } else {
      SizeOfKeys(Next(s, a).snapshots, s.snapshots);
    }
  }

  lemma StepStored(s: State, a: Ask, id: string)
    requires Inv(s) && a.uuid !in s.drawn && id in Next(s, a).snapshots
    ensures StoredFor(Next(s, a), id, Next(s, a).snapshots[id])
  {
    if !(Freezes(s.snapshots, a) && id == a.identity) {
      assert StoredFor(s, id, s.snapshots[id]);
    }
  }

  lemma StepKeeps(s: State, a: Ask)
    requires Inv(s) && a.uuid !in s.drawn
    ensures Inv(Next(s, a))
  {
    StepSize(s, a);
    forall id | id in Next(s, a).snapshots ensures StoredFor(Next(s, a), id, Next(s, a).snapshots[id]) {
      StepStored(s, a, id);
    }
  }

  lemma {:induction false} RunKeeps(ss: seq<State>, asks: seq<Ask>, i: nat)
    requires IsRun(ss, asks) && i < |ss|
    ensures Inv(ss[i])
  {
    if i > 0 {
      RunKeeps(ss, asks, i - 1);
      assert StepAt(ss, asks, i - 1);
      StepKeeps(ss[i - 1], asks[i - 1]);
    }
  }

  /** What was drawn for a token stays. */
  lemma {:induction false} DrawnStays(ss: seq<State>, asks: seq<Ask>, i: nat, j: nat, token: string)
    requires IsRun(ss, asks) && i <= j < |ss| && token in ss[i].drawn && token in ss[i].owners
    ensures token in ss[j].drawn && ss[j].drawn[token] == ss[i].drawn[token]
    ensures token in ss[j].owners && ss[j].owners[token] == ss[i].owners[token]
    decreases j
  {
    if i < j {
      DrawnStays(ss, asks, i, j - 1, token);
      assert StepAt(ss, asks, j - 1);
    }
  }

  /** The call that drew the token and froze its text. */
  ghost predicate FrozenAt(ss: seq<State>, asks: seq<Ask>, f: nat, token: string)
    requires f < |asks| && f < |ss|
  {
    asks[f].uuid == token && Freezes(ss[f].snapshots, asks[f])
  }

  /** What was drawn for a token came from one earlier call. */
  lemma {:induction false} DrawnFrom(ss: seq<State>, asks: seq<Ask>, i: nat, token: string) returns (f: nat)
    requires IsRun(ss, asks) && i < |ss| && token in ss[i].drawn
    ensures f < i && FrozenAt(ss, asks, f, token) && token in ss[i].owners && ss[i].owners[token] == asks[f].identity
    ensures ss[i].drawn[token] == Frozen(asks[f].now, token, asks[f].current)
  {
    RunKeeps(ss, asks, i);
    assert StepAt(ss, asks, i - 1);
    if FrozenAt(ss, asks, i - 1, token) {
      f := i - 1;
    } else {
      f := DrawnFrom(ss, asks, i - 1, token);
    }
  }

  /** Only one call freezes a text for a token. */
  lemma FrozenOnce(ss: seq<State>, asks: seq<Ask>, f: nat, g: nat, token: string)
    requires IsRun(ss, asks) && f <= g < |asks| && FrozenAt(ss, asks, f, token) && FrozenAt(ss, asks, g, token)
    ensures f == g
  {
    assert StepAt(ss, asks, f) && StepAt(ss, asks, g);
    if f < g { DrawnStays(ss, asks, f + 1, g, token); }
  }

  /** The reply to call i is the page at its offset of the text that call f froze. */
  ghost predicate PageOf(ss: seq<State>, asks: seq<Ask>, f: nat, i: nat)
    requires f < |asks| && i < |asks| && |ss| > |asks|
  {
    var page, text, request := ReplyAt(ss, asks, i), asks[f].current, asks[i].request;
    && page.Page? && FrozenAt(ss, asks, f, page.token) && asks[f].identity == asks[i].identity
    && |text| <= MAX_SNAPSHOT_CHARS && request.Request? && 0 <= request.offset < |text|
    && var end := if request.offset + PAGE_CHARS < |text| then request.offset + PAGE_CHARS else |text|;
       page.text == text[request.offset..end] && page.next == (if end < |text| then Some(end) else None)
  }

  /**
   * Whatever the interleaving, a page is a slice of the text that one call froze, the only call
   * that froze a text for the page's token, and that call was made by the same observer.
   */
  lemma PagesAreSlices(ss: seq<State>, asks: seq<Ask>, i: nat)
    requires IsRun(ss, asks) && i < |asks| && ReplyAt(ss, asks, i).Page?
    ensures exists f: nat :: f <= i && PageOf(ss, asks, f, i)
    ensures
      var token := ReplyAt(ss, asks, i).token;
      forall f: nat, g: nat ::
        f < |asks| && g < |asks| && FrozenAt(ss, asks, f, token) && FrozenAt(ss, asks, g, token) ==> f == g
  {
    RunKeeps(ss, asks, i);
    assert StepAt(ss, asks, i);
    var token := ReplyAt(ss, asks, i).token;
    PageDrawn(ss[i], asks[i]);
    var f := DrawnFrom(ss, asks, i + 1, token);
    assert PageOf(ss, asks, f, i);
    forall g: nat, h: nat | g < |asks| && h < |asks| && FrozenAt(ss, asks, g, token) && FrozenAt(ss, asks, h, token)
      ensures g == h
    {
      if g <= h { FrozenOnce(ss, asks, g, h, token); } else { FrozenOnce(ss, asks, h, g, token); }
    }
  }

  /** A page is a slice of what was drawn for its token, for this observer. */
  lemma PageDrawn(s: State, a: Ask)
    requires Inv(s) && a.uuid !in s.drawn && Answer(s.snapshots, a).reply.Page?
    ensures
      var page, t := Answer(s.snapshots, a).reply, Next(s, a);
      && page.token in t.drawn && page.token in t.owners && t.owners[page.token] == a.identity
      && var text := t.drawn[page.token].text;
         && |text| <= MAX_SNAPSHOT_CHARS && a.request.Request? && 0 <= a.request.offset < |text|
         && var end := if a.request.offset + PAGE_CHARS < |text| then a.request.offset + PAGE_CHARS else |text|;
            page.text == text[a.request.offset..end] && page.next == (if end < |text| then Some(end) else None)
  {
  }

  lemma StoredBounds(ss: seq<State>, asks: seq<Ask>, i: nat)
    requires IsRun(ss, asks) && i < |ss|
    ensures |ss[i].snapshots| <= 32
    ensures forall id :: id in ss[i].snapshots ==> |ss[i].snapshots[id].text| <= 2097152
  {
    RunKeeps(ss, asks, i);
  }

  // ----- following nextOffset -----

  /** What an observer has after call j of a transfer it started at call i. */
  datatype Progress = Progress(next: Option<nat>, collected: string, pages: nat)

  function Follow(ss: seq<State>, asks: seq<Ask>, i: nat, j: nat): Progress
    requires i <= j < |asks| && j < |ss|
    decreases j
  {
    var reply := ReplyAt(ss, asks, j);
    if j == i then
      if reply.Page? then Progress(reply.next, reply.text, 1) else Progress(None, "", 0)
    else
      var before := Follow(ss, asks, i, j - 1);
      if asks[j].identity == asks[i].identity && reply.Page?
      then Progress(reply.next, before.collected + reply.text, before.pages + 1)
      else before
  }

  /** Call j, if it is the observer's, asks for its next offset; it comes within 60 s of call i. */
  ghost predicate FollowsAt(ss: seq<State>, asks: seq<Ask>, i: nat, j: nat)
    requires i < j < |asks| && j < |ss|
  {
    && asks[i].now <= asks[j].now < asks[i].now + LIFETIME_MS
    && (asks[j].identity == asks[i].identity ==>
          asks[j].allowed && Follow(ss, asks, i, j - 1).next.Some?
          && asks[j].request == Request(Follow(ss, asks, i, j - 1).next.value, Some(asks[i].uuid)))
  }

  /**
   * From call i to call n the observer only asks for its next offset, while it is authorized;
   * every call comes within 60 s of the first.
   */
  ghost predicate Follows(ss: seq<State>, asks: seq<Ask>, i: nat, n: nat)
    requires i <= n < |asks| && n < |ss|
  {
    forall j: nat {:trigger FollowsAt(ss, asks, i, j)} :: i < j <= n ==> FollowsAt(ss, asks, i, j)
  }

  function CeilPages(n: nat): nat { (n + PAGE_CHARS - 1) / PAGE_CHARS }

  /** Between its calls the observer's frozen text stays put. */
  ghost predicate Underway(s: Snapshots, a: Ask, p: Progress) {
    match p.next
    case Some(o) =>
      && a.identity in s && s[a.identity] == Frozen(a.now, a.uuid, a.current)
      && 0 < o < |a.current| && p.collected == a.current[..o] && o == p.pages * PAGE_CHARS
    case None => p.collected == a.current && p.pages == CeilPages(|a.current|)
  }

  lemma FirstPage(s: Snapshots, a: Ask)
    requires a.request.Request? && a.request.offset == 0 && a.current != "" && Answer(s, a).reply.Page?
    ensures
      var r := Answer(s, a).reply;
      Underway(Answer(s, a).snapshots, a, Progress(r.next, r.text, 1))
      && |a.current| <= MAX_SNAPSHOT_CHARS && r.token == a.uuid
  {
    assert a.current[0..] == a.current;
  }

  /** Another observer's call leaves the transfer alone. */
  lemma OtherCall(s: Snapshots, first: Ask, a: Ask, p: Progress)
    requires Underway(s, first, p) && a.identity != first.identity && a.now < first.now + LIFETIME_MS
    ensures Underway(Answer(s, a).snapshots, first, p)
  {
  }

  /** The next call of the observer gives the next page. */
  lemma NextPage(s: Snapshots, first: Ask, a: Ask, p: Progress)
    requires Underway(s, first, p) && p.next.Some? && a.identity == first.identity && a.allowed
    requires a.now < first.now + LIFETIME_MS && a.request == Request(p.next.value, Some(first.uuid))
    ensures
      var r := Answer(s, a).reply;
      && r.Page? && r.text != ""
      && Underway(Answer(s, a).snapshots, first, Progress(r.next, p.collected + r.text, p.pages + 1))
  {
    var kept := Prune(s, a.now);
    assert first.identity in kept && kept[first.identity] == s[first.identity];
    var o := p.next.value;
    var text := first.current;
    var end := if o + PAGE_CHARS < |text| then o + PAGE_CHARS else |text|;
    assert text[..o] + text[o..end] == text[..end];
    if end == |text| {
      assert text[..end] == text;
      LastCount(p.pages, |text|);
    }
  }

  lemma LastCount(pages: nat, n: nat)
    requires pages * PAGE_CHARS < n <= pages * PAGE_CHARS + PAGE_CHARS
    ensures CeilPages(n) == pages + 1
  {
    var rest := n - pages * PAGE_CHARS;
    assert n + PAGE_CHARS - 1 == (pages + 1) * PAGE_CHARS + (rest - 1);
  }

  lemma SnapshotsAt(ss: seq<State>, asks: seq<Ask>, j: nat)
    requires IsRun(ss, asks) && j < |asks|
    ensures ss[j + 1].snapshots == Answer(ss[j].snapshots, asks[j]).snapshots
  {
    assert StepAt(ss, asks, j);
  }

  lemma StartsUnderway(ss: seq<State>, asks: seq<Ask>, i: nat)
    requires IsRun(ss, asks) && i < |asks| && ReplyAt(ss, asks, i).Page?
    requires asks[i].request.Request? && asks[i].request.offset == 0 && asks[i].current != ""
    ensures ReplyAt(ss, asks, i).text != "" && Underway(ss[i + 1].snapshots, asks[i], Follow(ss, asks, i, i))
  {
    SnapshotsAt(ss, asks, i);
    FirstPage(ss[i].snapshots, asks[i]);
  }

  lemma GoesOn(ss: seq<State>, asks: seq<Ask>, i: nat, j: nat)
    requires IsRun(ss, asks) && i < j < |asks| && Follows(ss, asks, i, j)
    requires Underway(ss[j].snapshots, asks[i], Follow(ss, asks, i, j - 1))
    ensures asks[j].identity == asks[i].identity ==> ReplyAt(ss, asks, j).Page? && ReplyAt(ss, asks, j).text != ""
    ensures Underway(ss[j + 1].snapshots, asks[i], Follow(ss, asks, i, j))
  {
    SnapshotsAt(ss, asks, j);
    assert FollowsAt(ss, asks, i, j);
    if asks[j].identity == asks[i].identity {
      NextPage(ss[j].snapshots, asks[i], asks[j], Follow(ss, asks, i, j - 1));
    } else {
      OtherCall(ss[j].snapshots, asks[i], asks[j], Follow(ss, asks, i, j - 1));
    }
  }

  lemma {:induction false} StaysUnderway(ss: seq<State>, asks: seq<Ask>, i: nat, j: nat)
    requires IsRun(ss, asks) && i <= j < |asks| && Follows(ss, asks, i, j)
    requires asks[i].request.Request? && asks[i].request.offset == 0 && asks[i].current != ""
    requires ReplyAt(ss, asks, i).Page?
    ensures asks[j].identity == asks[i].identity ==> ReplyAt(ss, asks, j).Page? && ReplyAt(ss, asks, j).text != ""
    ensures Underway(ss[j + 1].snapshots, asks[i], Follow(ss, asks, i, j))
    decreases j
  {
    if j == i {
      StartsUnderway(ss, asks, i);
    } else {
      StaysUnderway(ss, asks, i, j - 1);
      GoesOn(ss, asks, i, j);
    }
  }

  /**
   * An observer that starts a transfer and follows nextOffset is never refused: after every call
   * it holds a strictly growing prefix of the frozen text, and when there is no next offset it
   * holds the whole text, after exactly ceil(length / 6000) pages.
   */
  lemma TransferCompletes(ss: seq<State>, asks: seq<Ask>, i: nat, j: nat)
    requires IsRun(ss, asks) && i <= j < |asks| && Follows(ss, asks, i, j)
    requires asks[i].request.Request? && asks[i].request.offset == 0 && asks[i].current != ""
    requires ReplyAt(ss, asks, i).Page?
    ensures asks[j].identity == asks[i].identity ==> ReplyAt(ss, asks, j).Page? && ReplyAt(ss, asks, j).text != ""
    ensures
      var p := Follow(ss, asks, i, j);
      match p.next
      case Some(o) => 0 < o < |asks[i].current| && o == 6000 * p.pages && p.collected == asks[i].current[..o]
      case None => p.collected == asks[i].current && p.pages == (|asks[i].current| + 5999) / 6000
  {
    StaysUnderway(ss, asks, i, j);
  }
}
