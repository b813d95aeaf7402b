/**
 * src/aida_agent/transcript_history.py without its transfer: segments and revisions given to
 * caller and assistant text, the snapshot, and an observer that merges a snapshot with live rows.
 */
module History {
  import opened Wrappers
  import opened Text

  datatype Role = User | Assistant | Other

  /** An entry of session.history; text is "" where text_content is empty or missing. */
  datatype Item = Item(id: string, message: bool, role: Role, text: string)

  datatype Row = Row(id: string, segment: string, role: Role, text: string, final: bool, sequence: nat)

  datatype HistoryState = HistoryState(
    sequence: nat,
    committed: map<string, (string, nat)>,
    pending: Option<Row>,
    finals: seq<string>,      // caller_finals
    closed: bool)

  const NEW_HISTORY := HistoryState(0, map[], None, [], false)

  /** " ".join(parts) */
  function Join(parts: seq<string>): string {
    if parts == [] then ""
    else if |parts| == 1 then parts[0]
    else Join(parts[..|parts| - 1]) + " " + parts[|parts| - 1]
  }

  predicate Speaks(item: Item) { (item.role.User? || item.role.Assistant?) && item.text != "" }

  /** What a snapshot shows of the history. */
  predicate Shown(item: Item) { item.message && Speaks(item) }

  datatype Made = Made(state: HistoryState, row: Option<Row>)

  function Caller(h: HistoryState, text: string, final: bool, uuid: string): Made {
    if h.closed || Blank(text) then Made(h, None)
    else
      var segment := if h.pending.Some? then h.pending.value.segment else "caller-" + uuid;
      var row := Row(segment, segment, User, Join(h.finals + [text]), false, h.sequence + 1);
      Made(h.(sequence := h.sequence + 1, pending := Some(row),
              finals := if final then h.finals + [text] else h.finals),
           Some(row))
  }

  function OnItem(h: HistoryState, item: Item): Made {
    if h.closed || !Speaks(item) then Made(h, None)
    else
      var segment := if item.role.User? && h.pending.Some? then h.pending.value.segment else item.id;
      var row := Row(item.id, segment, item.role, item.text, true, h.sequence + 1);
      var next := h.(sequence := h.sequence + 1, committed := h.committed[item.id := (segment, h.sequence + 1)]);
      Made(if item.role.User? then next.(pending := None, finals := []) else next, Some(row))
  }

  function Committed(h: HistoryState, item: Item): Row {
    var (segment, sequence) := if item.id in h.committed then h.committed[item.id] else (item.id, 0);
    Row(item.id, segment, item.role, item.text, true, sequence)
  }

  function CommittedRows(h: HistoryState, items: seq<Item>): seq<Row> {
    if items == [] then []
    else
      CommittedRows(h, items[..|items| - 1])
      + (if Shown(items[|items| - 1]) then [Committed(h, items[|items| - 1])] else [])
  }

  function Snapshot(h: HistoryState, items: seq<Item>): seq<Row> {
    CommittedRows(h, items) + (if h.pending.Some? then [h.pending.value] else [])
  }

  // ----- runs -----

  /** The adapter, the session history it reads, and every row it has produced. */
  datatype World = World(history: HistoryState, items: seq<Item>, log: seq<Row>)

  datatype Event =
    | Speak(text: string, final: bool, uuid: string)
    | Commit(item: Item)    // conversation_item_added: appended and announced in one step
    | Append(item: Item)    // anything else the session records

  predicate UsedSegment(w: World, segment: string) {
    exists i :: 0 <= i < |w.log| && w.log[i].segment == segment
  }

  predicate UsedId(w: World, id: string) {
    exists i :: 0 <= i < |w.items| && w.items[i].id == id
  }

  /** Ids and uuids are fresh; the SDK announces messages, and silently records no message with text. */
  predicate Enabled(w: World, e: Event) {
    match e
    case Speak(_, _, uuid) => !UsedSegment(w, "caller-" + uuid) && !UsedId(w, "caller-" + uuid)
    case Commit(item) => item.message && !UsedId(w, item.id) && !UsedSegment(w, item.id)
    case Append(item) => !Shown(item) && !UsedId(w, item.id) && !UsedSegment(w, item.id)
  }

  function Emit(w: World, made: Made): World {
    w.(history := made.state, log := w.log + (if made.row.Some? then [made.row.value] else []))
  }

  function Next(w: World, e: Event): World {
    match e
    case Speak(text, final, uuid) => Emit(w, Caller(w.history, text, final, uuid))
    case Commit(item) => Emit(w, OnItem(w.history, item)).(items := w.items + [item])
    case Append(item) => w.(items := w.items + [item])
  }

  ghost predicate UniqueIds(items: seq<Item>) {
    forall i, j :: 0 <= i < j < |items| ==> items[i].id != items[j].id
  }

  /** The session may have a history when the adapter starts. */
  ghost predicate IsStart(w: World) { w == World(NEW_HISTORY, w.items, []) && UniqueIds(w.items) }

  ghost predicate StepAt(ws: seq<World>, es: seq<Event>, i: nat)
    requires |ws| == |es| + 1 && i < |es|
  {
    Enabled(ws[i], es[i]) && ws[i + 1] == Next(ws[i], es[i])
  }

  ghost predicate IsRun(ws: seq<World>, es: seq<Event>) {
    && |ws| == |es| + 1 && IsStart(ws[0])
    && (forall i: nat {:trigger StepAt(ws, es, i)} :: i < |es| ==> StepAt(ws, es, i))
  }

  // ----- the invariant -----

  ghost predicate Numbered(log: seq<Row>) {
    forall i :: 0 <= i < |log| ==> log[i].sequence == i + 1
  }

  /** No row follows a segment's final row. */
  ghost predicate FinalsLast(log: seq<Row>) {
    forall i, j :: 0 <= i < j < |log| && log[i].segment == log[j].segment ==> !log[i].final
  }

  ghost predicate Latest(log: seq<Row>, i: int)
    requires 0 <= i < |log|
  {
    forall j :: i < j < |log| ==> log[j].segment != log[i].segment
  }

  /** The pending row is the newest of its segment; every other newest row is final. */
  ghost predicate LogInv(log: seq<Row>, h: HistoryState) {
    && |log| == h.sequence && Numbered(log) && FinalsLast(log)
    && (h.pending.Some? ==>
          var p := h.pending.value;
          1 <= p.sequence <= |log| && log[p.sequence - 1] == p && !p.final && p.id == p.segment
          && Latest(log, p.sequence - 1))
    && (forall i :: 0 <= i < |log| && Latest(log, i) ==> log[i].final || h.pending == Some(log[i]))
  }

  /** A final row is a committed item's, under that item's segment and sequence. */
  ghost predicate RowsCommitted(log: seq<Row>, h: HistoryState) {
    forall i :: 0 <= i < |log| && log[i].final ==>
      log[i].id in h.committed && h.committed[log[i].id] == (log[i].segment, i + 1)
  }

  /** A committed item is shown, and its row is in the log. */
  ghost predicate ItemCommitted(log: seq<Row>, h: HistoryState, item: Item)
    requires item.id in h.committed
  {
    var c := h.committed[item.id];
    Shown(item) && 1 <= c.1 <= |log| && log[c.1 - 1] == Row(item.id, c.0, item.role, item.text, true, c.1)
  }

  ghost predicate ItemsCommitted(w: World) {
    && UniqueIds(w.items)
    && (forall k :: 0 <= k < |w.items| && w.items[k].id in w.history.committed ==>
          ItemCommitted(w.log, w.history, w.items[k]))
    && (forall id :: id in w.history.committed ==> UsedId(w, id))
  }

  /** No row has the id of an uncommitted item as its segment. */
  ghost predicate OldItems(w: World) {
    forall k :: 0 <= k < |w.items| && w.items[k].id !in w.history.committed ==> !UsedSegment(w, w.items[k].id)
  }

  ghost predicate Inv(w: World) {
    LogInv(w.log, w.history) && RowsCommitted(w.log, w.history) && ItemsCommitted(w) && OldItems(w)
  }

  lemma LatestAppend(log: seq<Row>, row: Row, i: nat)
    requires i < |log|
    ensures Latest(log + [row], i) <==> Latest(log, i) && log[i].segment != row.segment
  {
    var next := log + [row];
    assert next[|log|] == row;
    if Latest(next, i) {
      forall j | i < j < |log| ensures log[j].segment != log[i].segment {
        assert next[j] == log[j];
      }
    }
  }

  /** A row goes to the segment of the pending row, or to a segment no row has yet. */
  ghost predicate GoesTo(log: seq<Row>, h: HistoryState, segment: string) {
    || (h.pending.Some? && segment == h.pending.value.segment)
    || (forall i :: 0 <= i < |log| ==> log[i].segment != segment)
  }

  lemma NoFinalYet(log: seq<Row>, h: HistoryState, segment: string, i: nat)
    requires LogInv(log, h) && GoesTo(log, h, segment) && i < |log| && log[i].segment == segment
    ensures !log[i].final && h.pending.Some?
  {
    var p := h.pending.value;
    if i < p.sequence - 1 {
      assert log[p.sequence - 1].segment == log[i].segment;
    }
  }

  lemma AppendRow(log: seq<Row>, h: HistoryState, row: Row, next: HistoryState)
    requires LogInv(log, h) && row.sequence == |log| + 1 == next.sequence
    requires GoesTo(log, h, row.segment)
    requires if row.final then
               next.pending.None? || (next.pending == h.pending && row.segment != h.pending.value.segment)
             else next.pending == Some(row) && row.id == row.segment
    requires h.pending.Some? && row.segment != h.pending.value.segment ==> next.pending == h.pending
    ensures LogInv(log + [row], next)
  {
    var after := log + [row];
    forall i, j | 0 <= i < j < |after| && after[i].segment == after[j].segment ensures !after[i].final {
      if j == |log| { NoFinalYet(log, h, row.segment, i); }
    }
    if next.pending.Some? && next.pending == h.pending {
      LatestAppend(log, row, h.pending.value.sequence - 1);
    }
    AppendNewest(log, h, row, next);
  }

  lemma AppendNewest(log: seq<Row>, h: HistoryState, row: Row, next: HistoryState)
    requires forall i :: 0 <= i < |log| && Latest(log, i) ==> log[i].final || h.pending == Some(log[i])
    requires !row.final ==> next.pending == Some(row)
    requires h.pending.Some? && row.segment != h.pending.value.segment ==> next.pending == h.pending
    ensures
      var after := log + [row];
      forall i :: 0 <= i < |after| && Latest(after, i) ==> after[i].final || next.pending == Some(after[i])
  {
    var after := log + [row];
    forall i | 0 <= i < |after| && Latest(after, i) ensures after[i].final || next.pending == Some(after[i]) {
      if i < |log| {
        LatestAppend(log, row, i);
      }
    }
  }

  lemma SpeakKeeps(w: World, text: string, final: bool, uuid: string)
    requires Inv(w) && Enabled(w, Speak(text, final, uuid))
    ensures Inv(Next(w, Speak(text, final, uuid)))
  {
    var made := Caller(w.history, text, final, uuid);
    var v := Next(w, Speak(text, final, uuid));
    if made.row.Some? {
      assert GoesTo(w.log, w.history, made.row.value.segment);
      AppendRow(w.log, w.history, made.row.value, v.history);
      SpeakRows(w, text, final, uuid);
      SpeakItems(w, text, final, uuid);
      SpeakOld(w, text, final, uuid);
    } else {
      assert v == w by { assert w.log + [] == w.log; }
    }
  }

  lemma SpeakRows(w: World, text: string, final: bool, uuid: string)
    requires Inv(w) && Caller(w.history, text, final, uuid).row.Some?
    ensures var v := Next(w, Speak(text, final, uuid)); RowsCommitted(v.log, v.history)
  {
    var v := Next(w, Speak(text, final, uuid));
    assert v.history.committed == w.history.committed && v.log[..|w.log|] == w.log && !v.log[|w.log|].final;
  }

  lemma SpeakItems(w: World, text: string, final: bool, uuid: string)
    requires Inv(w) && Caller(w.history, text, final, uuid).row.Some?
    ensures ItemsCommitted(Next(w, Speak(text, final, uuid)))
  {
    var v := Next(w, Speak(text, final, uuid));
    assert v.items == w.items && v.history.committed == w.history.committed && w.log <= v.log;
    forall k | 0 <= k < |v.items| && v.items[k].id in v.history.committed
      ensures ItemCommitted(v.log, v.history, v.items[k])
    {
      ItemStays(w.log, v.log, w.history, v.history, w.items[k]);
    }
    forall id | id in v.history.committed ensures UsedId(v, id) { assert UsedId(w, id); }
  }

  /** A committed item stays so while the log grows. */
  lemma ItemStays(log: seq<Row>, longer: seq<Row>, h: HistoryState, g: HistoryState, item: Item)
    requires log <= longer && item.id in h.committed && item.id in g.committed
    requires g.committed[item.id] == h.committed[item.id] && ItemCommitted(log, h, item)
    ensures ItemCommitted(longer, g, item)
  {
  }

  lemma SpeakOld(w: World, text: string, final: bool, uuid: string)
    requires Inv(w) && Enabled(w, Speak(text, final, uuid)) && Caller(w.history, text, final, uuid).row.Some?
    ensures OldItems(Next(w, Speak(text, final, uuid)))
  {
    var v := Next(w, Speak(text, final, uuid));
    forall k | 0 <= k < |v.items| && v.items[k].id !in v.history.committed ensures !UsedSegment(v, v.items[k].id) {
      assert !UsedSegment(w, w.items[k].id) && UsedId(w, w.items[k].id);
    }
  }

  lemma CommitKeeps(w: World, item: Item)
    requires Inv(w) && Enabled(w, Commit(item))
    requires !w.history.closed
    ensures Inv(Next(w, Commit(item)))
  {
    var made := OnItem(w.history, item);
    var v := Next(w, Commit(item));
    if made.row.Some? {
      var row := made.row.value;
      assert GoesTo(w.log, w.history, row.segment);
      if w.history.pending.Some? && item.role.Assistant? {
        assert w.log[w.history.pending.value.sequence - 1].segment != item.id;
      }
      AppendRow(w.log, w.history, row, v.history);
      CommitRows(w, item);
      CommitItems(w, item);
      CommitOld(w, item);
    } else {
      assert v == w.(items := w.items + [item]) by { assert w.log + [] == w.log; }
      AppendKeeps(w, item);
    }
  }

  lemma CommitRows(w: World, item: Item)
    requires Inv(w) && Enabled(w, Commit(item)) && OnItem(w.history, item).row.Some?
    ensures var v := Next(w, Commit(item)); RowsCommitted(v.log, v.history)
  {
    var v := Next(w, Commit(item));
    assert item.id !in w.history.committed;
    forall i | 0 <= i < |v.log| && v.log[i].final
      ensures v.log[i].id in v.history.committed && v.history.committed[v.log[i].id] == (v.log[i].segment, i + 1)
    {
      if i < |w.log| { assert w.log[i].final; }
    }
  }

  lemma CommitIds(w: World, item: Item)
    requires Inv(w) && Enabled(w, Commit(item)) && OnItem(w.history, item).row.Some?
    ensures var v := Next(w, Commit(item)); forall id :: id in v.history.committed ==> UsedId(v, id)
  {
    var v := Next(w, Commit(item));
    forall id | id in v.history.committed ensures UsedId(v, id) {
      if id == item.id { assert v.items[|w.items|].id == id; }
      else {
        assert UsedId(w, id);
        var k :| 0 <= k < |w.items| && w.items[k].id == id;
        assert v.items[k].id == id;
      }
    }
  }

  lemma CommitItems(w: World, item: Item)
    requires Inv(w) && Enabled(w, Commit(item)) && OnItem(w.history, item).row.Some?
    ensures ItemsCommitted(Next(w, Commit(item)))
  {
    var v := Next(w, Commit(item));
    CommitIds(w, item);
    assert UniqueIds(v.items);
    forall k | 0 <= k < |v.items| && v.items[k].id in v.history.committed
      ensures ItemCommitted(v.log, v.history, v.items[k])
    {
      CommitItem(w, item, k);
    }
  }

  lemma CommitItem(w: World, item: Item, k: int)
    requires Inv(w) && Enabled(w, Commit(item)) && OnItem(w.history, item).row.Some? && 0 <= k <= |w.items|
    requires Next(w, Commit(item)).items[k].id in Next(w, Commit(item)).history.committed
    ensures ItemCommitted(Next(w, Commit(item)).log, Next(w, Commit(item)).history, Next(w, Commit(item)).items[k])
  {
    if k < |w.items| {
      assert w.items[k].id != item.id;
      assert ItemCommitted(w.log, w.history, w.items[k]);
    }
  }

  lemma CommitOld(w: World, item: Item)
    requires Inv(w) && Enabled(w, Commit(item)) && OnItem(w.history, item).row.Some?
    ensures OldItems(Next(w, Commit(item)))
  {
    var v := Next(w, Commit(item));
    forall k | 0 <= k < |v.items| && v.items[k].id !in v.history.committed ensures !UsedSegment(v, v.items[k].id) {
      CommitOldItem(w, item, k);
    }
  }

  lemma CommitOldItem(w: World, item: Item, k: int)
    requires Inv(w) && Enabled(w, Commit(item)) && OnItem(w.history, item).row.Some? && 0 <= k <= |w.items|
    requires Next(w, Commit(item)).items[k].id !in Next(w, Commit(item)).history.committed
    ensures !UsedSegment(Next(w, Commit(item)), Next(w, Commit(item)).items[k].id)
  {
    assert k < |w.items| && w.items[k].id !in w.history.committed;
    assert !UsedSegment(w, w.items[k].id) && w.items[k].id != item.id;
    var segment := OnItem(w.history, item).row.value.segment;
    if w.history.pending.Some? && segment == w.history.pending.value.segment {
      assert w.log[w.history.pending.value.sequence - 1].segment == segment;
    }
  }

  /** An item that gets no row. */
  lemma AppendKeeps(w: World, item: Item)
    requires Inv(w) && !UsedId(w, item.id) && !UsedSegment(w, item.id)
    ensures Inv(w.(items := w.items + [item]))
  {
    var v := w.(items := w.items + [item]);
    assert item.id !in w.history.committed;
    forall k | 0 <= k < |v.items| && v.items[k].id in v.history.committed
      ensures ItemCommitted(v.log, v.history, v.items[k])
    {
      assert k < |w.items|;
      assert ItemCommitted(w.log, w.history, w.items[k]);
    }
    forall id | id in v.history.committed ensures UsedId(v, id) {
      assert UsedId(w, id);
      var k :| 0 <= k < |w.items| && w.items[k].id == id;
      assert v.items[k].id == id;
    }
    forall k | 0 <= k < |v.items| && v.items[k].id !in v.history.committed ensures !UsedSegment(v, v.items[k].id) {
      if k < |w.items| { assert !UsedSegment(w, w.items[k].id); }
    }
  }

  lemma StepKeeps(w: World, e: Event)
    requires Inv(w) && Enabled(w, e) && !w.history.closed
    ensures Inv(Next(w, e)) && !Next(w, e).history.closed && w.log <= Next(w, e).log
  {
    match e
    case Speak(text, final, uuid) => SpeakKeeps(w, text, final, uuid);
    case Commit(item) => CommitKeeps(w, item);
    case Append(item) => AppendKeeps(w, item);
  }

  lemma {:induction false} RunKeeps(ws: seq<World>, es: seq<Event>, i: nat)
    requires IsRun(ws, es) && i < |ws|
    ensures Inv(ws[i]) && !ws[i].history.closed
  {
    if i > 0 {
      RunKeeps(ws, es, i - 1);
      assert StepAt(ws, es, i - 1);
      StepKeeps(ws[i - 1], es[i - 1]);
    }
  }
}
