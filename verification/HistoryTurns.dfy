/**
 * Caller turns of src/aida_agent/transcript_history.py: what the pending row says, and that a
 * segment is exactly one caller turn.
 */
module HistoryTurns {
  import opened Wrappers
  import opened Text
  import opened History

  /** The event makes a row. */
  predicate Emits(e: Event) {
    match e
    case Speak(text, _, _) => !Blank(text)
    case Commit(item) => Speaks(item)
    case Append(_) => false
  }

  /** The caller's text enters the session's history, which ends the turn. */
  predicate EndsTurn(e: Event) { e.Commit? && Speaks(e.item) && e.item.role.User? }

  /** The event belongs to a caller turn. */
  predicate OfCaller(e: Event) { Emits(e) && (e.Speak? || EndsTurn(e)) }

  /** What the recognizer said since the last turn ended, without blank results. */
  function Heard(es: seq<Event>): seq<(string, bool)> {
    if es == [] then []
    else
      var e := es[|es| - 1];
      if EndsTurn(e) then []
      else Heard(es[..|es| - 1]) + (if e.Speak? && Emits(e) then [(e.text, e.final)] else [])
  }

  function Finals(heard: seq<(string, bool)>): seq<string> {
    if heard == [] then []
    else Finals(heard[..|heard| - 1]) + (if heard[|heard| - 1].1 then [heard[|heard| - 1].0] else [])
  }

  /** The interim result that no final has replaced yet. */
  function Interim(heard: seq<(string, bool)>): seq<string> {
    if heard != [] && !heard[|heard| - 1].1 then [heard[|heard| - 1].0] else []
  }

  ghost predicate SaysHeard(h: HistoryState, heard: seq<(string, bool)>) {
    && h.finals == Finals(heard)
    && (h.pending.None? <==> heard == [])
    && (h.pending.Some? ==> h.pending.value.text == Join(Finals(heard) + Interim(heard)))
  }

  lemma HeardMore(h: HistoryState, heard: seq<(string, bool)>, text: string, final: bool, uuid: string)
    requires SaysHeard(h, heard) && !h.closed && !Blank(text)
    ensures SaysHeard(Caller(h, text, final, uuid).state, heard + [(text, final)])
  {
    var more := heard + [(text, final)];
    assert more[..|heard|] == heard;
    assert Finals(more) + Interim(more) == Finals(heard) + [text];
  }

  /**
   * The pending row always shows the finals of this turn joined by spaces, followed by the
   * latest interim result; there is none exactly when nothing was heard since the last turn.
   */
  lemma {:induction false} PendingText(ws: seq<World>, es: seq<Event>, i: nat)
    requires IsRun(ws, es) && i <= |es|
    ensures SaysHeard(ws[i].history, Heard(es[..i]))
  {
    if i > 0 {
      PendingText(ws, es, i - 1);
      RunKeeps(ws, es, i - 1);
      assert StepAt(ws, es, i - 1);
      assert es[..i] == es[..i - 1] + [es[i - 1]];
      HeardStep(ws[i - 1], es[..i - 1], es[i - 1]);
    }
  }

  lemma HeardStep(w: World, es: seq<Event>, e: Event)
    requires Enabled(w, e) && !w.history.closed && SaysHeard(w.history, Heard(es))
    ensures SaysHeard(Next(w, e).history, Heard(es + [e]))
  {
    HeardAppend(es, e);
    if e.Speak? && Emits(e) {
      HeardMore(w.history, Heard(es), e.text, e.final, e.uuid);
    } else {
      HeardNothing(w, e);
    }
  }

  lemma HeardAppend(es: seq<Event>, e: Event)
    ensures Heard(es + [e])
            == if EndsTurn(e) then []
               else if e.Speak? && Emits(e) then Heard(es) + [(e.text, e.final)] else Heard(es)
  {
    assert (es + [e])[..|es|] == es;
  }

  lemma HeardNothing(w: World, e: Event)
    requires !w.history.closed && !(e.Speak? && Emits(e))
    ensures
      var h := Next(w, e).history;
      if EndsTurn(e) then h.pending.None? && h.finals == []
      else h.pending == w.history.pending && h.finals == w.history.finals
  {
  }

  // ----- segments -----

  /** The row that event i made. */
  ghost predicate MadeRow(ws: seq<World>, es: seq<Event>, i: nat, row: Row)
    requires i < |es| && |ws| == |es| + 1
  {
    Emits(es[i]) && ws[i + 1].log == ws[i].log + [row]
  }

  lemma StepMakes(ws: seq<World>, es: seq<Event>, i: nat)
    requires IsRun(ws, es) && i < |es|
    ensures Emits(es[i]) ==> exists row :: MadeRow(ws, es, i, row)
    ensures !Emits(es[i]) ==> ws[i + 1].log == ws[i].log && ws[i + 1].history == ws[i].history
    ensures forall row :: MadeRow(ws, es, i, row) && OfCaller(es[i]) ==>
              && row.final == EndsTurn(es[i])
              && (es[i].Speak? ==> ws[i + 1].history.pending == Some(row))
              && (ws[i].history.pending.Some? ==> row.segment == ws[i].history.pending.value.segment)
    ensures !OfCaller(es[i]) ==> ws[i + 1].history.pending == ws[i].history.pending
  {
    RunKeeps(ws, es, i);
    assert StepAt(ws, es, i);
    var made := match es[i]
      case Speak(text, final, uuid) => Caller(ws[i].history, text, final, uuid)
      case Commit(item) => OnItem(ws[i].history, item)
      case Append(_) => Made(ws[i].history, None);
    if Emits(es[i]) {
      assert MadeRow(ws, es, i, made.row.value);
      forall row | MadeRow(ws, es, i, row) ensures row == made.row.value {
        assert (ws[i].log + [row])[|ws[i].log|] == row;
      }
    } else {
      assert ws[i].log + [] == ws[i].log;
    }
  }

  /** Until the turn ends, the pending row keeps the segment the turn began with. */
  lemma {:induction false} TurnKeepsSegment(ws: seq<World>, es: seq<Event>, i: nat, j: nat, row: Row)
    requires IsRun(ws, es) && i < j <= |es| && es[i].Speak? && MadeRow(ws, es, i, row)
    requires forall k :: i < k < j ==> !EndsTurn(es[k])
    ensures ws[j].history.pending.Some? && ws[j].history.pending.value.segment == row.segment
    decreases j
  {
    if j == i + 1 {
      StepMakes(ws, es, i);
    } else {
      TurnKeepsSegment(ws, es, i, j - 1, row);
      StepMakes(ws, es, j - 1);
      if OfCaller(es[j - 1]) {
        var r :| MadeRow(ws, es, j - 1, r);
      }
    }
  }

  lemma {:induction false} LogGrows(ws: seq<World>, es: seq<Event>, i: nat, j: nat)
    requires IsRun(ws, es) && i <= j <= |es|
    ensures ws[i].log <= ws[j].log
    decreases j
  {
    if i < j {
      LogGrows(ws, es, i, j - 1);
      StepMakes(ws, es, j - 1);
      if Emits(es[j - 1]) { var row :| MadeRow(ws, es, j - 1, row); }
    }
  }

  /** After the row that ends a turn no row is of its segment. */
  lemma NothingAfterTurn(ws: seq<World>, es: seq<Event>, m: nat, j: nat, end: Row, row: Row)
    requires IsRun(ws, es) && m < j < |es| && MadeRow(ws, es, m, end) && end.final && MadeRow(ws, es, j, row)
    ensures row.segment != end.segment
  {
    LogGrows(ws, es, m + 1, j);
    RunKeeps(ws, es, j + 1);
    var log := ws[j + 1].log;
    assert log[|ws[m].log|] == end && log[|ws[j].log|] == row;
  }

  lemma TurnEnd(es: seq<Event>, i: nat, j: nat) returns (m: nat)
    requires i < j <= |es| && exists k :: i < k < j && EndsTurn(es[k])
    ensures i < m < j && EndsTurn(es[m]) && forall k :: i < k < m ==> !EndsTurn(es[k])
    decreases j - i
  {
    m := i + 1;
    while !EndsTurn(es[m])
      invariant i < m < j && forall k :: i < k < m ==> !EndsTurn(es[k])
      invariant exists k :: m <= k < j && EndsTurn(es[k])
      decreases j - m
    {
      m := m + 1;
    }
  }

  /**
   * A segment is one caller turn: a later row of the caller has the segment of this partial or
   * final result exactly when no user message entered the history between them.
   */
  lemma SegmentIsTurn(ws: seq<World>, es: seq<Event>, i: nat, j: nat, a: Row, b: Row)
    requires IsRun(ws, es) && i < j < |es| && es[i].Speak? && OfCaller(es[j])
    requires MadeRow(ws, es, i, a) && MadeRow(ws, es, j, b)
    ensures a.segment == b.segment <==> forall k :: i < k < j ==> !EndsTurn(es[k])
  {
    if exists k :: i < k < j && EndsTurn(es[k]) {
      var m := TurnEnd(es, i, j);
      TurnKeepsSegment(ws, es, i, m, a);
      StepMakes(ws, es, m);
      var end :| MadeRow(ws, es, m, end);
      NothingAfterTurn(ws, es, m, j, end, b);
    } else {
      TurnKeepsSegment(ws, es, i, j, a);
      StepMakes(ws, es, j);
    }
  }

  /** The committed row of a segment has the largest sequence of all its rows, now and later. */
  lemma CommitIsNewest(ws: seq<World>, es: seq<Event>, i: nat, j: int, k: int)
    requires IsRun(ws, es) && i < |ws| && 0 <= j < |ws[i].log| && 0 <= k < |ws[i].log|
    requires ws[i].log[j].final && ws[i].log[k].segment == ws[i].log[j].segment
    ensures ws[i].log[k].sequence <= ws[i].log[j].sequence
    ensures ws[i].log[k].sequence == ws[i].log[j].sequence ==> k == j
  {
    RunKeeps(ws, es, i);
  }

  // ----- the text of the rows -----

  lemma JoinLast(parts: seq<string>, x: string)
    ensures Join(parts + [x]) == if parts == [] then x else Join(parts) + " " + x
  {
    assert (parts + [x])[..|parts|] == parts;
  }

  /** No text is heard and no turn ends between the two events. */
  predicate NothingHeard(es: seq<Event>, i: nat, j: nat)
    requires i <= j <= |es|
  {
    forall k :: i <= k < j ==> !OfCaller(es[k])
  }

  lemma {:induction false} FinalsStay(ws: seq<World>, es: seq<Event>, i: nat, j: nat)
    requires IsRun(ws, es) && i <= j <= |es| && NothingHeard(es, i, j)
    ensures ws[j].history.finals == ws[i].history.finals
    decreases j
  {
    if i < j {
      FinalsStay(ws, es, i, j - 1);
      assert StepAt(ws, es, j - 1);
    }
  }

  /** The text of a row is what was said and, before it, the finals of its turn. */
  lemma RowText(ws: seq<World>, es: seq<Event>, i: nat, a: Row)
    requires IsRun(ws, es) && i < |es| && es[i].Speak? && MadeRow(ws, es, i, a)
    ensures a.text == Join(ws[i].history.finals + [es[i].text])
    ensures ws[i + 1].history.finals
            == (if es[i].final then ws[i].history.finals + [es[i].text] else ws[i].history.finals)
  {
    RunKeeps(ws, es, i);
    assert StepAt(ws, es, i);
    var row := Caller(ws[i].history, es[i].text, es[i].final, es[i].uuid).row.value;
    assert (ws[i].log + [a])[|ws[i].log|] == a && (ws[i].log + [row])[|ws[i].log|] == row;
  }

  /** a ends in x, and b has y in its place. */
  predicate Replaces(a: string, x: string, y: string, b: string) {
    |x| <= |a| && a[|a| - |x|..] == x && b == a[..|a| - |x|] + y
  }

  /**
   * What a row of the caller says of the turn: its first result is the text itself.  After a
   * final result the next one follows it and a space; after a partial result the next one takes
   * its place, behind the same text as before.
   */
  lemma TextGrows(ws: seq<World>, es: seq<Event>, i: nat, j: nat, a: Row, b: Row)
    requires IsRun(ws, es) && i < j < |es| && es[i].Speak? && es[j].Speak?
    requires MadeRow(ws, es, i, a) && MadeRow(ws, es, j, b) && NothingHeard(es, i + 1, j)
    ensures es[i].final ==> b.text == a.text + " " + es[j].text
    ensures !es[i].final ==> Replaces(a.text, es[i].text, es[j].text, b.text)
  {
    RowText(ws, es, i, a);
    RowText(ws, es, j, b);
    FinalsStay(ws, es, i + 1, j);
    TextStep(ws[i].history.finals, es[i].text, es[i].final, ws[j].history.finals, es[j].text, a.text, b.text);
  }

  lemma TextStep(finals: seq<string>, x: string, final: bool, next: seq<string>, y: string, a: string, b: string)
    requires a == Join(finals + [x]) && next == (if final then finals + [x] else finals) && b == Join(next + [y])
    ensures final ==> b == a + " " + y
    ensures !final ==> Replaces(a, x, y, b)
  {
    if final { AfterFinal(finals, x, y); } else { AfterPartial(finals, x, y); }
  }

  lemma AfterFinal(finals: seq<string>, x: string, y: string)
    ensures Join(finals + [x] + [y]) == Join(finals + [x]) + " " + y
  {
    JoinLast(finals + [x], y);
  }

  lemma AfterPartial(finals: seq<string>, x: string, y: string)
    ensures Replaces(Join(finals + [x]), x, y, Join(finals + [y]))
  {
    JoinLast(finals, x);
    JoinLast(finals, y);
    TextAfter(if finals == [] then "" else Join(finals) + " ", x, Join(finals + [x]));
  }

  lemma TextAfter(before: string, text: string, whole: string)
    requires whole == before + text
    ensures |text| <= |whole| && whole[|whole| - |text|..] == text && whole[..|whole| - |text|] == before
  {
  }

  /** The first result of a turn: of the call, or after the message that ended the turn before. */
  lemma TextBegins(ws: seq<World>, es: seq<Event>, i: nat, j: nat, b: Row)
    requires IsRun(ws, es) && i <= j < |es| && es[j].Speak? && MadeRow(ws, es, j, b) && NothingHeard(es, i, j)
    requires i == 0 || EndsTurn(es[i - 1])
    ensures b.text == es[j].text
  {
    RowText(ws, es, j, b);
    FinalsStay(ws, es, i, j);
    JoinLast([], es[j].text);
    if i > 0 {
      RunKeeps(ws, es, i - 1);
      assert StepAt(ws, es, i - 1);
    }
    assert [] + [es[j].text] == [es[j].text];
  }

  /** What an item's row says: the item, final, in the caller's pending segment or its own. */
  lemma CommitText(ws: seq<World>, es: seq<Event>, i: nat, row: Row)
    requires IsRun(ws, es) && i < |es| && es[i].Commit? && MadeRow(ws, es, i, row)
    ensures
      var item, pending := es[i].item, ws[i].history.pending;
      row == Row(item.id,
                 if item.role.User? && pending.Some? then pending.value.segment else item.id,
                 item.role, item.text, true, |ws[i].log| + 1)
  {
    RunKeeps(ws, es, i);
    assert StepAt(ws, es, i);
    var made := OnItem(ws[i].history, es[i].item).row.value;
    assert (ws[i].log + [row])[|ws[i].log|] == row && (ws[i].log + [made])[|ws[i].log|] == made;
  }

  /** A partial or final result's row: the caller's, not final, numbered next. */
  lemma SpeakRow(ws: seq<World>, es: seq<Event>, i: nat, row: Row)
    requires IsRun(ws, es) && i < |es| && es[i].Speak? && MadeRow(ws, es, i, row)
    ensures
      var pending := ws[i].history.pending;
      && row.segment == (if pending.Some? then pending.value.segment else "caller-" + es[i].uuid)
      && row.id == row.segment && row.role.User? && !row.final && row.sequence == |ws[i].log| + 1
  {
    RunKeeps(ws, es, i);
    assert StepAt(ws, es, i);
    var made := Caller(ws[i].history, es[i].text, es[i].final, es[i].uuid).row.value;
    assert (ws[i].log + [row])[|ws[i].log|] == row && (ws[i].log + [made])[|ws[i].log|] == made;
  }

  /** Which events make a row: results that are not blank, and user or assistant text that is not empty. */
  lemma RowsMade(ws: seq<World>, es: seq<Event>, i: nat)
    requires IsRun(ws, es) && i < |es|
    ensures |ws[i + 1].log| == |ws[i].log|
              + match es[i]
                case Speak(text, _, _) => (if exists c :: c in text && !IsSpace(c) then 1 else 0)
                case Commit(item) => (if (item.role.User? || item.role.Assistant?) && item.text != "" then 1 else 0)
                case Append(_) => 0
  {
    RunKeeps(ws, es, i);
    assert StepAt(ws, es, i);
  }

  // ----- the snapshot -----

  /** at names, in order, the items that are shown, and no other item is. */
  ghost predicate Shows(items: seq<Item>, at: seq<nat>) {
    && (forall k :: 0 <= k < |at| ==> at[k] < |items|)
    && (forall k, l :: 0 <= k < l < |at| ==> at[k] < at[l])
    && (forall m: nat :: m in at <==>
          m < |items| && items[m].message && (items[m].role.User? || items[m].role.Assistant?) && items[m].text != "")
  }

  /** The row of the item, with the segment and number of its commit, if it was committed. */
  ghost predicate RowOf(h: HistoryState, item: Item, row: Row) {
    && row.id == item.id && row.role == item.role && row.text == item.text && row.final
    && (if item.id in h.committed then (row.segment, row.sequence) == h.committed[item.id]
        else row.segment == item.id && row.sequence == 0)
  }

  lemma {:induction false} CommittedShown(h: HistoryState, items: seq<Item>) returns (at: seq<nat>)
    ensures Shows(items, at) && RowsOf(h, items, at, CommittedRows(h, items))
  {
    if items == [] {
      at := [];
    } else {
      var n := |items| - 1;
      var before := CommittedShown(h, items[..n]);
      ShowsMore(items, before);
      RowsMore(h, items, before);
      at := if Shown(items[n]) then before + [n] else before;
    }
  }

  ghost predicate RowsOf(h: HistoryState, items: seq<Item>, at: seq<nat>, rows: seq<Row>) {
    && |rows| == |at|
    && (forall k :: 0 <= k < |at| ==> at[k] < |items| && RowOf(h, items[at[k]], rows[k]))
  }

  lemma RowsMore(h: HistoryState, items: seq<Item>, at: seq<nat>)
    requires items != [] && RowsOf(h, items[..|items| - 1], at, CommittedRows(h, items[..|items| - 1]))
    ensures RowsOf(h, items, if Shown(items[|items| - 1]) then at + [|items| - 1] else at, CommittedRows(h, items))
  {
    var n := |items| - 1;
    var before := CommittedRows(h, items[..n]);
    RowsWiden(h, items[..n], items, at, before);
    if Shown(items[n]) {
      RowsAppend(h, items, at, before, n, Committed(h, items[n]));
    } else {
      assert CommittedRows(h, items) == before;
    }
  }

  lemma RowsWiden(h: HistoryState, items: seq<Item>, more: seq<Item>, at: seq<nat>, rows: seq<Row>)
    requires items <= more && RowsOf(h, items, at, rows)
    ensures RowsOf(h, more, at, rows)
  {
    forall k | 0 <= k < |at| ensures at[k] < |more| && RowOf(h, more[at[k]], rows[k]) {
      assert RowOf(h, items[at[k]], rows[k]);
    }
  }

  lemma RowsAppend(h: HistoryState, items: seq<Item>, at: seq<nat>, rows: seq<Row>, n: nat, row: Row)
    requires RowsOf(h, items, at, rows) && n < |items| && RowOf(h, items[n], row)
    ensures RowsOf(h, items, at + [n], rows + [row])
  {
    forall k | 0 <= k < |at + [n]|
      ensures (at + [n])[k] < |items| && RowOf(h, items[(at + [n])[k]], (rows + [row])[k])
    {
      if k < |at| { assert RowOf(h, items[at[k]], rows[k]); }
    }
  }

  lemma ShowsMore(items: seq<Item>, at: seq<nat>)
    requires items != [] && Shows(items[..|items| - 1], at)
    ensures Shows(items, if Shown(items[|items| - 1]) then at + [|items| - 1] else at)
  {
    var n := |items| - 1;
    assert forall m: nat :: m in at ==> m < n && items[..n][m] == items[m];
  }

  /**
   * A snapshot is, in order, one row for each message of the user or the assistant with text,
   * and then the pending row, if there is one.
   */
  lemma SnapshotShows(h: HistoryState, items: seq<Item>) returns (at: seq<nat>)
    ensures Shows(items, at)
    ensures
      var rows := Snapshot(h, items);
      && |rows| == |at| + (if h.pending.Some? then 1 else 0)
      && (forall k :: 0 <= k < |at| ==> RowOf(h, items[at[k]], rows[k]))
      && (h.pending.Some? ==> rows[|at|] == h.pending.value)
  {
    at := CommittedShown(h, items);
  }
}
