/**
 * An observer's whole path (docs/TRANSCRIPT_HISTORY.md): it pages through the snapshot of one
 * moment, parses what it collected, and merges live rows while the history goes on.
 */
module CatchUp {
  import opened Wrappers
  import J = Json
  import H = History
  import O = Observer
  import P = Paging
  import T = Transfer

  // ----- reading a snapshot -----

  function ReadRole(name: string): H.Role {
    if name == "user" then H.User else if name == "assistant" then H.Assistant else H.Other
  }

  function ReadRow(v: J.Json): Option<H.Row> {
    if !v.Obj? then None
    else
      match (J.Get(v.fields, "id"), J.Get(v.fields, "segment_id"), J.Get(v.fields, "role"),
             J.Get(v.fields, "content"), J.Get(v.fields, "is_final"), J.Get(v.fields, "sequence"))
      case (Some(Str(id)), Some(Str(segment)), Some(Str(role)), Some(Arr(content)), Some(Bool(final)), Some(Num(n))) =>
        if |content| == 1 && content[0].Str?
        then Some(H.Row(id, segment, ReadRole(role), content[0].s, final, n)) else None
      case _ => None
  }

  function ReadRows(items: seq<J.Json>): Option<seq<H.Row>> {
    if items == [] then Some([])
    else
      match (ReadRows(items[..|items| - 1]), ReadRow(items[|items| - 1]))
      case (Some(rows), Some(row)) => Some(rows + [row])
      case _ => None
  }

  /** The rows of a snapshot's text. */
  function ReadSnapshot(text: string): Option<seq<H.Row>> {
    match J.Loads(text)
    case Some(Obj(fields)) =>
      (match J.Get(fields, "items") case Some(Arr(items)) => ReadRows(items) case _ => None)
    case _ => None
  }

  /** The call a snapshot's text belongs to. */
  function ReadCall(text: string): Option<string> {
    match J.Loads(text)
    case Some(Obj(fields)) => (match J.Get(fields, "callId") case Some(Str(id)) => Some(id) case _ => None)
    case _ => None
  }

  lemma RowReads(row: H.Row)
    ensures ReadRow(T.RowJson(row)) == Some(row)
  {
    var fields := T.RowJson(row).fields;
    assert |fields[0].key| == 2 && |fields[1].key| == 10 && |fields[2].key| == 4;
    assert |fields[3].key| == 7 && |fields[4].key| == 8 && |fields[5].key| == 8;
    assert fields[4].key[0] != fields[5].key[0];
    J.GetAt(fields, 0);
    J.GetAt(fields, 1);
    J.GetAt(fields, 2);
    J.GetAt(fields, 3);
    J.GetAt(fields, 4);
    J.GetAt(fields, 5);
  }

  lemma {:induction false} RowsRead(rows: seq<H.Row>)
    ensures ReadRows(T.RowsJson(rows)) == Some(rows)
  {
    if rows != [] {
      var n := |rows| - 1;
      RowsRead(rows[..n]);
      RowReads(rows[n]);
      assert T.RowsJson(rows)[..n] == T.RowsJson(rows[..n]);
      assert rows == rows[..n] + [rows[n]];
    }
  }

  lemma SnapshotReads(callId: string, rows: seq<H.Row>)
    ensures ReadSnapshot(T.SnapshotText(callId, rows)) == Some(rows)
    ensures ReadCall(T.SnapshotText(callId, rows)) == Some(callId)
  {
    J.LoadsDumps(T.SnapshotJson(callId, rows), J.COMPACT);
    var fields := T.SnapshotJson(callId, rows).fields;
    assert |fields[0].key| == 6 && |fields[1].key| == 5;
    J.GetAt(fields, 0);
    J.GetAt(fields, 1);
    RowsRead(rows);
  }

  // ----- history and transfers together -----

  /** Call a finds the history in state at[a] of its run, and would freeze that snapshot. */
  ghost predicate Joint(hs: seq<H.World>, asks: seq<P.Ask>, at: seq<nat>, callId: string) {
    && |at| == |asks|
    && (forall a, b :: 0 <= a <= b < |at| ==> at[a] <= at[b])
    && (forall a :: 0 <= a < |at| ==>
          at[a] < |hs| && asks[a].current == T.SnapshotText(callId, H.Snapshot(hs[at[a]].history, hs[at[a]].items)))
  }

  /**
   * History and transfers interleave in any way.  An observer that starts a transfer at call i,
   * follows nextOffset to its end, parses what it collected and merges arrivals, in any order and
   * with any older rows among them, agrees with a snapshot taken at history step n exactly when
   * the newest row of every segment written since call i has arrived.
   */
  lemma CatchesUp(hs: seq<H.World>, es: seq<H.Event>, ss: seq<P.State>, asks: seq<P.Ask>, at: seq<nat>, callId: string,
                  i: nat, j: nat, n: nat, arrivals: seq<H.Row>)
    requires H.IsRun(hs, es) && P.IsRun(ss, asks) && Joint(hs, asks, at, callId)
    requires i <= j < |asks| && P.Follows(ss, asks, i, j) && P.ReplyAt(ss, asks, i).Page?
    requires asks[i].request.Request? && asks[i].request.offset == 0
    requires at[i] <= n < |hs| && forall a :: a in arrivals ==> a in hs[n].log
    ensures P.Follow(ss, asks, i, j).next.None? ==>
              var rows := ReadSnapshot(P.Follow(ss, asks, i, j).collected);
              && rows.Some?
              && (O.Fold(O.Fold(map[], rows.value), arrivals) == O.View(hs[n])
                  <==> O.NewestArrived(hs[at[i]], hs[n], arrivals))
  {
    var w := hs[at[i]];
    T.SnapshotTextStarts(callId, H.Snapshot(w.history, w.items));
    P.TransferCompletes(ss, asks, i, j);
    SnapshotReads(callId, H.Snapshot(w.history, w.items));
    O.Convergence(hs, es, at[i], n, arrivals);
  }
}
