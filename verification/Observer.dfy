/**
 * An observer of the live transcript (docs/TRANSCRIPT_HISTORY.md): it takes one snapshot, then
 * merges rows by segment and revision, never replacing a final row with a partial one.
 */
module Observer {
  import opened Wrappers
  import opened History

  /** What the observer keeps of a segment. */
  datatype Entry = Entry(text: string, final: bool, sequence: nat)

  function Of(row: Row): Entry { Entry(row.text, row.final, row.sequence) }

  function Merge(m: map<string, Entry>, row: Row): map<string, Entry> {
    if row.segment in m
       && (row.sequence < m[row.segment].sequence || (m[row.segment].final && !row.final))
    then m
    else m[row.segment := Of(row)]
  }

  function Fold(m: map<string, Entry>, rows: seq<Row>): map<string, Entry> {
    if rows == [] then m else Merge(Fold(m, rows[..|rows| - 1]), rows[|rows| - 1])
  }

  /** The observer's map right after the snapshot of w. */
  function View(w: World): map<string, Entry> { Fold(map[], Snapshot(w.history, w.items)) }

  // ----- a snapshot has one entry a segment -----

  ghost predicate DistinctSegments(rows: seq<Row>) {
    forall i, j :: 0 <= i < j < |rows| ==> rows[i].segment != rows[j].segment
  }

  lemma {:induction false} RowsFromItems(h: HistoryState, items: seq<Item>)
    ensures forall r :: r in CommittedRows(h, items) ==>
              exists k :: 0 <= k < |items| && Shown(items[k]) && r == Committed(h, items[k])
    ensures forall k :: 0 <= k < |items| && Shown(items[k]) ==> Committed(h, items[k]) in CommittedRows(h, items)
  {
    if items != [] {
      var n := |items| - 1;
      RowsFromItems(h, items[..n]);
      forall r | r in CommittedRows(h, items)
        ensures exists k :: 0 <= k < |items| && Shown(items[k]) && r == Committed(h, items[k])
      {
        if r in CommittedRows(h, items[..n]) {
          var k :| 0 <= k < n && Shown(items[..n][k]) && r == Committed(h, items[..n][k]);
          assert items[k] == items[..n][k];
        } else {
          assert r == Committed(h, items[n]);
        }
      }
      forall k | 0 <= k < |items| && Shown(items[k]) ensures Committed(h, items[k]) in CommittedRows(h, items) {
        if k < n { assert items[..n][k] == items[k]; }
      }
    }
  }

  /** Two shown items never share a segment, nor does one share the pending segment. */
  lemma SegmentsDiffer(w: World, j: nat, k: nat)
    requires Inv(w) && j < |w.items| && k < |w.items| && Shown(w.items[j]) && Shown(w.items[k]) && j != k
    ensures Committed(w.history, w.items[j]).segment != Committed(w.history, w.items[k]).segment
  {
    var h := w.history;
    var x, y := w.items[j], w.items[k];
    assert x.id != y.id;
    if x.id in h.committed && y.id in h.committed {
      CommittedDiffer(w.log, h, x, y);
    } else if x.id in h.committed {
      OldDiffers(w, j, k);
    } else if y.id in h.committed {
      OldDiffers(w, k, j);
    }
  }

  lemma CommittedDiffer(log: seq<Row>, h: HistoryState, x: Item, y: Item)
    requires FinalsLast(log) && x.id != y.id && x.id in h.committed && y.id in h.committed
    requires ItemCommitted(log, h, x) && ItemCommitted(log, h, y)
    ensures h.committed[x.id].0 != h.committed[y.id].0
  {
    var a, b := h.committed[x.id].1 - 1, h.committed[y.id].1 - 1;
    assert log[a].id == x.id && log[b].id == y.id;
  }

  /** A committed item's segment is no uncommitted item's id. */
  lemma OldDiffers(w: World, j: nat, k: nat)
    requires Inv(w) && j < |w.items| && k < |w.items|
    requires w.items[j].id in w.history.committed && w.items[k].id !in w.history.committed
    ensures w.history.committed[w.items[j].id].0 != w.items[k].id
  {
    CommittedUsed(w, j);
    assert !UsedSegment(w, w.items[k].id);
  }

  lemma CommittedUsed(w: World, j: nat)
    requires ItemsCommitted(w) && j < |w.items| && w.items[j].id in w.history.committed
    ensures UsedSegment(w, w.history.committed[w.items[j].id].0)
    ensures Shown(w.items[j])
    ensures exists i :: 0 <= i < |w.log| && w.log[i].final
              && w.log[i].segment == w.history.committed[w.items[j].id].0
  {
    var c := w.history.committed[w.items[j].id];
    assert ItemCommitted(w.log, w.history, w.items[j]);
    assert w.log[c.1 - 1].segment == c.0 && w.log[c.1 - 1].final;
  }

  lemma PendingDiffers(w: World, k: nat)
    requires Inv(w) && k < |w.items| && Shown(w.items[k]) && w.history.pending.Some?
    ensures Committed(w.history, w.items[k]).segment != w.history.pending.value.segment
  {
    var h := w.history;
    var x, p := w.items[k], h.pending.value;
    assert w.log[p.sequence - 1].segment == p.segment;
    if x.id in h.committed {
      CommittedUsed(w, k);
      PendingNotFinal(w);
    } else {
      assert !UsedSegment(w, x.id);
    }
  }

  lemma PendingNotFinal(w: World)
    requires LogInv(w.log, w.history) && w.history.pending.Some?
    ensures forall i :: 0 <= i < |w.log| && w.log[i].segment == w.history.pending.value.segment ==> !w.log[i].final
  {
    var p := w.history.pending.value;
    assert w.log[p.sequence - 1].segment == p.segment;
  }

  lemma {:induction false} CommittedDistinct(w: World, n: nat)
    requires Inv(w) && n <= |w.items|
    ensures DistinctSegments(CommittedRows(w.history, w.items[..n]))
  {
    if n > 0 {
      var items := w.items[..n];
      assert items[..n - 1] == w.items[..n - 1];
      CommittedDistinct(w, n - 1);
      if Shown(items[n - 1]) {
        var before := CommittedRows(w.history, items[..n - 1]);
        RowsFromItems(w.history, items[..n - 1]);
        forall i | 0 <= i < |before| ensures before[i].segment != Committed(w.history, items[n - 1]).segment {
          assert before[i] in before;
          var k :| 0 <= k < n - 1 && Shown(items[..n - 1][k]) && before[i] == Committed(w.history, items[..n - 1][k]);
          SegmentsDiffer(w, k, n - 1);
        }
      }
    }
  }

  /** No snapshot has two entries with the same segment. */
  lemma SnapshotDistinct(w: World)
    requires Inv(w)
    ensures DistinctSegments(Snapshot(w.history, w.items))
  {
    assert w.items[..|w.items|] == w.items;
    CommittedDistinct(w, |w.items|);
    if w.history.pending.Some? {
      var rows := CommittedRows(w.history, w.items);
      RowsFromItems(w.history, w.items);
      forall i | 0 <= i < |rows| ensures rows[i].segment != w.history.pending.value.segment {
        assert rows[i] in rows;
        var k :| 0 <= k < |w.items| && Shown(w.items[k]) && rows[i] == Committed(w.history, w.items[k]);
        PendingDiffers(w, k);
      }
    }
  }

  lemma {:induction false} FoldDistinct(rows: seq<Row>)
    requires DistinctSegments(rows)
    ensures forall i :: 0 <= i < |rows| ==>
              rows[i].segment in Fold(map[], rows) && Fold(map[], rows)[rows[i].segment] == Of(rows[i])
    ensures forall segment :: segment in Fold(map[], rows) ==> exists i :: 0 <= i < |rows| && rows[i].segment == segment
  {
    if rows != [] {
      var n := |rows| - 1;
      var before := rows[..n];
      FoldDistinct(before);
      var m := Fold(map[], before);
      assert forall i :: 0 <= i < n ==> before[i].segment == rows[i].segment;
      forall i | 0 <= i < |rows|
        ensures rows[i].segment in Fold(map[], rows) && Fold(map[], rows)[rows[i].segment] == Of(rows[i])
      {
        if i < n { assert before[i] == rows[i]; }
      }
      forall segment | segment in Fold(map[], rows) ensures exists i :: 0 <= i < |rows| && rows[i].segment == segment {
        if segment in m {
          var i :| 0 <= i < n && before[i].segment == segment;
          assert rows[i].segment == segment;
        } else {
          assert rows[n].segment == segment;
        }
      }
    }
  }

  // ----- what a snapshot's map holds -----

  /** An item recorded before the adapter existed, so without a row. */
  ghost predicate OldEntry(w: World, segment: string, e: Entry) {
    exists k :: 0 <= k < |w.items| && Shown(w.items[k]) && w.items[k].id !in w.history.committed
      && w.items[k].id == segment && e == Entry(w.items[k].text, true, 0)
  }

  /** The newest row of the segment. */
  ghost predicate NewestEntry(log: seq<Row>, segment: string, e: Entry) {
    1 <= e.sequence <= |log| && log[e.sequence - 1].segment == segment && e == Of(log[e.sequence - 1])
    && Latest(log, e.sequence - 1)
  }

  /** For every segment its newest row, or its old item. */
  ghost predicate Complete(m: map<string, Entry>, w: World) {
    && (forall segment :: segment in m ==>
          OldEntry(w, segment, m[segment]) || NewestEntry(w.log, segment, m[segment]))
    && (forall i :: 0 <= i < |w.log| ==> w.log[i].segment in m)
    && (forall k :: 0 <= k < |w.items| && Shown(w.items[k]) && w.items[k].id !in w.history.committed ==>
          w.items[k].id in m)
  }

  lemma OldIsOnly(w: World, segment: string, e: Entry, f: Entry)
    requires Inv(w) && OldEntry(w, segment, e) && (OldEntry(w, segment, f) || NewestEntry(w.log, segment, f))
    ensures e == f
  {
    var k :| 0 <= k < |w.items| && Shown(w.items[k]) && w.items[k].id !in w.history.committed
             && w.items[k].id == segment && e == Entry(w.items[k].text, true, 0);
    assert !UsedSegment(w, w.items[k].id);
    if OldEntry(w, segment, f) {
      var l :| 0 <= l < |w.items| && w.items[l].id == segment && f == Entry(w.items[l].text, true, 0);
      assert k == l;
    }
  }

  lemma NewestIsOnly(log: seq<Row>, segment: string, e: Entry, f: Entry)
    requires NewestEntry(log, segment, e) && NewestEntry(log, segment, f)
    ensures e == f
  {
    assert log[e.sequence - 1].segment == log[f.sequence - 1].segment;
  }

  lemma CompleteAgrees(m: map<string, Entry>, n: map<string, Entry>, w: World, segment: string)
    requires Inv(w) && Complete(m, w) && Complete(n, w) && segment in m
    ensures segment in n && n[segment] == m[segment]
  {
    if OldEntry(w, segment, m[segment]) {
      assert segment in n by {
        var k :| 0 <= k < |w.items| && Shown(w.items[k]) && w.items[k].id !in w.history.committed
                 && w.items[k].id == segment;
      }
      OldIsOnly(w, segment, m[segment], n[segment]);
    } else {
      assert segment in n by { assert w.log[m[segment].sequence - 1].segment == segment; }
      if OldEntry(w, segment, n[segment]) {
        OldIsOnly(w, segment, n[segment], m[segment]);
      } else {
        NewestIsOnly(w.log, segment, m[segment], n[segment]);
      }
    }
  }

  lemma CompleteUnique(m: map<string, Entry>, n: map<string, Entry>, w: World)
    requires Inv(w) && Complete(m, w) && Complete(n, w)
    ensures m == n
  {
    forall segment | segment in m ensures segment in n && n[segment] == m[segment] {
      CompleteAgrees(m, n, w, segment);
    }
    forall segment | segment in n ensures segment in m {
      CompleteAgrees(n, m, w, segment);
    }
  }

  lemma {:induction false} LatestOf(log: seq<Row>, i: nat) returns (j: nat)
    requires i < |log|
    ensures i <= j < |log| && log[j].segment == log[i].segment && Latest(log, j)
    decreases |log| - i
  {
    if Latest(log, i) {
      j := i;
    } else {
      var k :| i < k < |log| && log[k].segment == log[i].segment;
      j := LatestOf(log, k);
    }
  }

  lemma ItemEntry(w: World, k: nat)
    requires Inv(w) && k < |w.items| && Shown(w.items[k])
    ensures
      var row := Committed(w.history, w.items[k]);
      OldEntry(w, row.segment, Of(row)) || NewestEntry(w.log, row.segment, Of(row))
  {
    var row := Committed(w.history, w.items[k]);
    if w.items[k].id in w.history.committed {
      assert ItemCommitted(w.log, w.history, w.items[k]);
      var i := w.history.committed[w.items[k].id].1 - 1;
      assert w.log[i].final;
      assert Latest(w.log, i);
    } else {
      assert OldEntry(w, row.segment, Of(row));
    }
  }

  lemma RowEntry(w: World, row: Row)
    requires Inv(w) && row in Snapshot(w.history, w.items)
    ensures OldEntry(w, row.segment, Of(row)) || NewestEntry(w.log, row.segment, Of(row))
  {
    RowsFromItems(w.history, w.items);
    if row in CommittedRows(w.history, w.items) {
      var k :| 0 <= k < |w.items| && Shown(w.items[k]) && row == Committed(w.history, w.items[k]);
      ItemEntry(w, k);
    }
  }

  lemma SnapshotHasRow(w: World, i: nat)
    requires Inv(w) && i < |w.log|
    ensures exists row :: row in Snapshot(w.history, w.items) && row.segment == w.log[i].segment
  {
    var j := LatestOf(w.log, i);
    RowsFromItems(w.history, w.items);
    if w.log[j].final {
      var id := w.log[j].id;
      assert id in w.history.committed && UsedId(w, id);
      var k :| 0 <= k < |w.items| && w.items[k].id == id;
      assert ItemCommitted(w.log, w.history, w.items[k]);
      assert Committed(w.history, w.items[k]) in Snapshot(w.history, w.items);
      assert Committed(w.history, w.items[k]).segment == w.log[i].segment;
    } else {
      assert w.history.pending == Some(w.log[j]);
      assert w.log[j] in Snapshot(w.history, w.items);
    }
  }

  lemma ViewComplete(w: World)
    requires Inv(w)
    ensures Complete(View(w), w)
  {
    var rows := Snapshot(w.history, w.items);
    var m := View(w);
    SnapshotDistinct(w);
    FoldDistinct(rows);
    forall segment | segment in m ensures OldEntry(w, segment, m[segment]) || NewestEntry(w.log, segment, m[segment]) {
      var i :| 0 <= i < |rows| && rows[i].segment == segment;
      assert rows[i] in rows;
      RowEntry(w, rows[i]);
    }
    forall i | 0 <= i < |w.log| ensures w.log[i].segment in m {
      SnapshotHasRow(w, i);
      var row :| row in rows && row.segment == w.log[i].segment;
      var j :| 0 <= j < |rows| && rows[j] == row;
      assert rows[j].segment in m;
    }
    forall k | 0 <= k < |w.items| && Shown(w.items[k]) && w.items[k].id !in w.history.committed
      ensures w.items[k].id in m
    {
      RowsFromItems(w.history, w.items);
      assert Committed(w.history, w.items[k]) in rows;
      var j :| 0 <= j < |rows| && rows[j] == Committed(w.history, w.items[k]);
      assert rows[j].segment in m;
    }
  }

  // ----- merging rows -----

  /** What later steps of a run keep of an earlier state. */
  ghost predicate Extends(v: World, w: World) {
    && v.log <= w.log && v.items <= w.items
    && (forall k :: 0 <= k < |v.items| && v.items[k].id !in v.history.committed ==>
        v.items[k].id !in w.history.committed)
    && (forall id :: id in v.history.committed ==> id in w.history.committed)
    && (forall k :: |v.items| <= k < |w.items| && Shown(w.items[k]) ==> w.items[k].id in w.history.committed)
  }

  lemma ExtendsStep(u: World, v: World, e: Event)
    requires Inv(v) && !v.history.closed && Enabled(v, e) && Extends(u, v)
    ensures Extends(u, Next(v, e))
  {
    var w := Next(v, e);
    forall k | 0 <= k < |u.items| && u.items[k].id !in u.history.committed
      ensures u.items[k].id !in w.history.committed
    {
      assert v.items[k] == u.items[k];
      if e.Commit? { assert UsedId(v, v.items[k].id); }
    }
    forall k | |u.items| <= k < |w.items| && Shown(w.items[k]) ensures w.items[k].id in w.history.committed {
      if k < |v.items| { assert w.items[k] == v.items[k]; }
    }
  }

  lemma {:induction false} ExtendsRun(ws: seq<World>, es: seq<Event>, i: nat, j: nat)
    requires IsRun(ws, es) && i <= j < |ws|
    ensures Extends(ws[i], ws[j])
    decreases j
  {
    if i < j {
      ExtendsRun(ws, es, i, j - 1);
      RunKeeps(ws, es, j - 1);
      assert StepAt(ws, es, j - 1);
      ExtendsStep(ws[i], ws[j - 1], es[j - 1]);
    }
  }

  /** Every entry of m is a row of the log, or of a segment no row has. */
  ghost predicate Known(m: map<string, Entry>, log: seq<Row>) {
    forall segment :: segment in m ==>
      var s := m[segment].sequence;
      || (1 <= s <= |log| && log[s - 1].segment == segment && m[segment] == Of(log[s - 1]))
      || (forall i :: 0 <= i < |log| ==> log[i].segment != segment)
  }

  /** After merging rows of the log each segment holds the newest of what it had and what came. */
  ghost predicate Newer(m: map<string, Entry>, before: map<string, Entry>, arrivals: seq<Row>) {
    && (forall segment :: segment in before ==> segment in m && m[segment].sequence >= before[segment].sequence)
    && (forall i :: 0 <= i < |arrivals| ==>
          arrivals[i].segment in m && m[arrivals[i].segment].sequence >= arrivals[i].sequence)
    && (forall segment :: segment in m ==>
          (segment in before && m[segment] == before[segment])
          || exists i :: 0 <= i < |arrivals| && arrivals[i].segment == segment && m[segment] == Of(arrivals[i]))
  }

  lemma MergeNewest(m: map<string, Entry>, log: seq<Row>, row: Row)
    requires Numbered(log) && FinalsLast(log) && Known(m, log) && row in log
    ensures Known(Merge(m, row), log)
    ensures row.segment in Merge(m, row) && Merge(m, row)[row.segment].sequence >= row.sequence
    ensures row.segment in m ==> Merge(m, row)[row.segment].sequence >= m[row.segment].sequence
  {
    var r :| 0 <= r < |log| && log[r] == row;
    if row.segment in m {
      var s := m[row.segment].sequence;
      assert 1 <= s <= |log| && log[s - 1].segment == row.segment;
      if log[s - 1].final && !log[r].final { FinalIsLater(log, s - 1, r); }
    }
  }

  lemma FinalIsLater(log: seq<Row>, i: int, j: int)
    requires FinalsLast(log) && 0 <= i < |log| && 0 <= j < |log|
    requires log[i].segment == log[j].segment && log[i].final && !log[j].final
    ensures j < i
  {
  }

  lemma {:induction false} FoldKnown(before: map<string, Entry>, log: seq<Row>, arrivals: seq<Row>)
    requires Numbered(log) && FinalsLast(log) && Known(before, log) && forall a :: a in arrivals ==> a in log
    ensures Known(Fold(before, arrivals), log)
  {
    if arrivals != [] {
      var n := |arrivals| - 1;
      assert arrivals[n] in arrivals && forall a :: a in arrivals[..n] ==> a in arrivals;
      FoldKnown(before, log, arrivals[..n]);
      MergeNewest(Fold(before, arrivals[..n]), log, arrivals[n]);
    }
  }

  lemma {:induction false} FoldNewest(before: map<string, Entry>, log: seq<Row>, arrivals: seq<Row>)
    requires Numbered(log) && FinalsLast(log) && Known(before, log) && forall a :: a in arrivals ==> a in log
    ensures Newer(Fold(before, arrivals), before, arrivals)
  {
    if arrivals == [] {
      assert Fold(before, arrivals) == before;
    } else {
      var n := |arrivals| - 1;
      assert arrivals[n] in arrivals && forall a :: a in arrivals[..n] ==> a in arrivals;
      FoldNewest(before, log, arrivals[..n]);
      FoldStep(before, log, arrivals);
    }
  }

  lemma FoldStep(before: map<string, Entry>, log: seq<Row>, arrivals: seq<Row>)
    requires Numbered(log) && FinalsLast(log) && Known(before, log) && arrivals != []
    requires forall a :: a in arrivals[..|arrivals| - 1] ==> a in log
    requires arrivals[|arrivals| - 1] in log
    requires Newer(Fold(before, arrivals[..|arrivals| - 1]), before, arrivals[..|arrivals| - 1])
    ensures Newer(Fold(before, arrivals), before, arrivals)
  {
    var m := Fold(before, arrivals[..|arrivals| - 1]);
    FoldKnown(before, log, arrivals[..|arrivals| - 1]);
    MergeNewest(m, log, arrivals[|arrivals| - 1]);
    NewerStep(m, before, arrivals);
  }

  lemma NewerStep(m: map<string, Entry>, before: map<string, Entry>, arrivals: seq<Row>)
    requires arrivals != [] && Newer(m, before, arrivals[..|arrivals| - 1])
    requires
      var row := arrivals[|arrivals| - 1];
      && row.segment in Merge(m, row) && Merge(m, row)[row.segment].sequence >= row.sequence
      && (row.segment in m ==> Merge(m, row)[row.segment].sequence >= m[row.segment].sequence)
    ensures Newer(Merge(m, arrivals[|arrivals| - 1]), before, arrivals)
  {
    var n := |arrivals| - 1;
    var next := Merge(m, arrivals[n]);
    forall i | 0 <= i < |arrivals|
      ensures arrivals[i].segment in next && next[arrivals[i].segment].sequence >= arrivals[i].sequence
    {
      if i < n { assert arrivals[..n][i] == arrivals[i]; }
    }
    forall segment | segment in next
      ensures (segment in before && next[segment] == before[segment])
              || exists i :: 0 <= i < |arrivals| && arrivals[i].segment == segment && next[segment] == Of(arrivals[i])
    {
      if segment in m && next[segment] == m[segment] {
        if !(segment in before && m[segment] == before[segment]) {
          var i :| 0 <= i < n && arrivals[..n][i].segment == segment && m[segment] == Of(arrivals[..n][i]);
          assert arrivals[i].segment == segment;
        }
      } else {
        assert arrivals[n].segment == segment;
      }
    }
  }

  // ----- convergence -----

  lemma BaseKnown(v: World, w: World)
    requires Inv(v) && Inv(w) && Extends(v, w)
    ensures Known(View(v), w.log)
  {
    ViewComplete(v);
    var m := View(v);
    forall segment | segment in m
      ensures
        var s := m[segment].sequence;
        || (1 <= s <= |w.log| && w.log[s - 1].segment == segment && m[segment] == Of(w.log[s - 1]))
        || (forall i :: 0 <= i < |w.log| ==> w.log[i].segment != segment)
    {
      if OldEntry(v, segment, m[segment]) {
        var k :| 0 <= k < |v.items| && v.items[k].id !in v.history.committed && v.items[k].id == segment;
        assert w.items[k] == v.items[k];
        assert !UsedSegment(w, w.items[k].id);
      }
    }
  }

  /** The newest row of each segment written after the snapshot has arrived. */
  ghost predicate NewestArrived(v: World, w: World, arrivals: seq<Row>) {
    forall i :: |v.log| <= i < |w.log| && Latest(w.log, i) ==> w.log[i] in arrivals
  }

  /** A segment's newest row of all, if the snapshot already had it. */
  lemma BaseHasNewest(v: World, w: World, i: nat)
    requires Inv(v) && Inv(w) && Extends(v, w) && i < |v.log| && Latest(w.log, i)
    ensures w.log[i].segment in View(v) && View(v)[w.log[i].segment] == Of(v.log[i]) && v.log[i].sequence == i + 1
  {
    var segment := v.log[i].segment;
    ViewComplete(v);
    assert segment in View(v);
    forall j | i < j < |v.log| ensures v.log[j].segment != v.log[i].segment { assert w.log[j] == v.log[j]; }
    NewestIn(v, View(v), i);
  }

  lemma NewestIn(w: World, m: map<string, Entry>, i: nat)
    requires Inv(w) && Complete(m, w) && i < |w.log| && Latest(w.log, i)
    ensures w.log[i].segment in m && m[w.log[i].segment] == Of(w.log[i]) && w.log[i].sequence == i + 1
  {
    var segment := w.log[i].segment;
    assert NewestEntry(w.log, segment, Of(w.log[i]));
    if OldEntry(w, segment, m[segment]) {
      OldIsOnly(w, segment, m[segment], Of(w.log[i]));
    } else {
      NewestIsOnly(w.log, segment, m[segment], Of(w.log[i]));
    }
  }

  /** The observer has at least the newest row of each segment. */
  lemma ReachesNewest(v: World, w: World, arrivals: seq<Row>, i: nat)
    requires Inv(v) && Inv(w) && Extends(v, w) && NewestArrived(v, w, arrivals)
    requires forall a :: a in arrivals ==> a in w.log
    requires i < |w.log| && Latest(w.log, i)
    ensures
      var m := Fold(View(v), arrivals);
      w.log[i].segment in m && m[w.log[i].segment].sequence >= i + 1
  {
    BaseKnown(v, w);
    FoldNewest(View(v), w.log, arrivals);
    if i < |v.log| {
      BaseHasNewest(v, w, i);
    } else {
      var j :| 0 <= j < |arrivals| && arrivals[j] == w.log[i];
      assert arrivals[j].sequence == i + 1;
    }
  }

  lemma ArrivedComplete(v: World, w: World, arrivals: seq<Row>)
    requires Inv(v) && Inv(w) && Extends(v, w) && NewestArrived(v, w, arrivals)
    requires forall a :: a in arrivals ==> a in w.log
    ensures Complete(Fold(View(v), arrivals), w)
  {
    var m := Fold(View(v), arrivals);
    BaseKnown(v, w);
    FoldKnown(View(v), w.log, arrivals);
    FoldNewest(View(v), w.log, arrivals);
    ViewComplete(v);
    forall i | 0 <= i < |w.log| ensures w.log[i].segment in m {
      var j := LatestOf(w.log, i);
      ReachesNewest(v, w, arrivals, j);
    }
    forall segment | segment in m ensures OldEntry(w, segment, m[segment]) || NewestEntry(w.log, segment, m[segment]) {
      if exists i :: 0 <= i < |w.log| && w.log[i].segment == segment {
        var i :| 0 <= i < |w.log| && w.log[i].segment == segment;
        var j := LatestOf(w.log, i);
        ReachesNewest(v, w, arrivals, j);
        assert m[segment].sequence - 1 == j;
      } else {
        OldStays(v, w, arrivals, segment);
      }
    }
    forall k | 0 <= k < |w.items| && Shown(w.items[k]) && w.items[k].id !in w.history.committed
      ensures w.items[k].id in m
    {
      assert k < |v.items| && v.items[k] == w.items[k];
      assert v.items[k].id !in v.history.committed;
    }
  }

  lemma OldStays(v: World, w: World, arrivals: seq<Row>, segment: string)
    requires Inv(v) && Inv(w) && Extends(v, w) && forall a :: a in arrivals ==> a in w.log
    requires segment in Fold(View(v), arrivals)
    requires forall i :: 0 <= i < |w.log| ==> w.log[i].segment != segment
    ensures OldEntry(w, segment, Fold(View(v), arrivals)[segment])
  {
    var m := Fold(View(v), arrivals);
    UntouchedKept(v, w, arrivals, segment);
    ViewComplete(v);
    assert OldEntry(v, segment, m[segment]) by {
      assert forall i :: 0 <= i < |v.log| ==> v.log[i] == w.log[i];
    }
    var k :| 0 <= k < |v.items| && Shown(v.items[k]) && v.items[k].id !in v.history.committed
             && v.items[k].id == segment && m[segment] == Entry(v.items[k].text, true, 0);
    assert w.items[k] == v.items[k];
  }

  /** A segment without rows is as the snapshot had it. */
  lemma UntouchedKept(v: World, w: World, arrivals: seq<Row>, segment: string)
    requires Inv(v) && Inv(w) && Extends(v, w) && forall a :: a in arrivals ==> a in w.log
    requires segment in Fold(View(v), arrivals)
    requires forall i :: 0 <= i < |w.log| ==> w.log[i].segment != segment
    ensures segment in View(v) && Fold(View(v), arrivals)[segment] == View(v)[segment]
  {
    BaseKnown(v, w);
    FoldNewest(View(v), w.log, arrivals);
    assert forall i :: 0 <= i < |arrivals| ==> arrivals[i] in arrivals && arrivals[i].segment != segment;
  }

  /** The observer's entry is the snapshot's, or that of a row that arrived. */
  lemma EntryCame(v: World, w: World, arrivals: seq<Row>, segment: string)
    requires Inv(v) && Inv(w) && Extends(v, w) && forall a :: a in arrivals ==> a in w.log
    requires segment in Fold(View(v), arrivals)
    ensures
      var e := Fold(View(v), arrivals)[segment];
      e.sequence <= |v.log| || exists a :: a in arrivals && e == Of(a)
  {
    BaseKnown(v, w);
    FoldNewest(View(v), w.log, arrivals);
    ViewComplete(v);
    var m := Fold(View(v), arrivals);
    if segment in View(v) && m[segment] == View(v)[segment] {
      assert OldEntry(v, segment, m[segment]) || NewestEntry(v.log, segment, m[segment]);
    } else {
      var j :| 0 <= j < |arrivals| && arrivals[j].segment == segment && m[segment] == Of(arrivals[j]);
      assert arrivals[j] in arrivals;
    }
  }

  lemma ArrivedByNumber(log: seq<Row>, arrivals: seq<Row>, e: Entry, i: nat)
    requires Numbered(log) && i < |log| && forall a :: a in arrivals ==> a in log
    requires e.sequence == i + 1 && exists a :: a in arrivals && e == Of(a)
    ensures log[i] in arrivals
  {
    var a :| a in arrivals && e == Of(a);
    var r :| 0 <= r < |log| && log[r] == a;
  }

  /** If a newest row after the snapshot is missing, the observer differs from a later snapshot. */
  lemma MissingDiffers(v: World, w: World, arrivals: seq<Row>, i: nat)
    requires Inv(v) && Inv(w) && Extends(v, w) && forall a :: a in arrivals ==> a in w.log
    requires |v.log| <= i < |w.log| && Latest(w.log, i) && w.log[i] !in arrivals
    ensures Fold(View(v), arrivals) != View(w)
  {
    var m := Fold(View(v), arrivals);
    var segment := w.log[i].segment;
    ViewComplete(w);
    NewestIn(w, View(w), i);
    if m == View(w) {
      EntryCame(v, w, arrivals, segment);
      ArrivedByNumber(w.log, arrivals, m[segment], i);
    }
  }

  /**
   * An observer that took its snapshot at step k and merged arrivals, in any order and with any
   * repetition or older row among them, agrees with a snapshot taken at step n exactly when the
   * newest row of every segment written in between has arrived.
   */
  lemma Convergence(ws: seq<World>, es: seq<Event>, k: nat, n: nat, arrivals: seq<Row>)
    requires IsRun(ws, es) && k <= n < |ws| && forall a :: a in arrivals ==> a in ws[n].log
    ensures Fold(View(ws[k]), arrivals) == View(ws[n]) <==> NewestArrived(ws[k], ws[n], arrivals)
  {
    RunKeeps(ws, es, k);
    RunKeeps(ws, es, n);
    ExtendsRun(ws, es, k, n);
    if NewestArrived(ws[k], ws[n], arrivals) {
      ArrivedComplete(ws[k], ws[n], arrivals);
      ViewComplete(ws[n]);
      CompleteUnique(Fold(View(ws[k]), arrivals), View(ws[n]), ws[n]);
    } else {
      var i :| |ws[k].log| <= i < |ws[n].log| && Latest(ws[n].log, i) && ws[n].log[i] !in arrivals;
      MissingDiffers(ws[k], ws[n], arrivals, i);
    }
  }

  /** Without dropped rows the observer always converges. */
  lemma ConvergesWithoutDrops(ws: seq<World>, es: seq<Event>, k: nat, n: nat, arrivals: seq<Row>)
    requires IsRun(ws, es) && k <= n < |ws| && forall a :: a in arrivals ==> a in ws[n].log
    requires forall i :: |ws[k].log| <= i < |ws[n].log| ==> ws[n].log[i] in arrivals
    ensures Fold(View(ws[k]), arrivals) == View(ws[n])
  {
    Convergence(ws, es, k, n, arrivals);
  }

  /** No snapshot of a run has two entries with one segment. */
  lemma OneEntryASegment(ws: seq<World>, es: seq<Event>, i: nat)
    requires IsRun(ws, es) && i < |ws|
    ensures DistinctSegments(Snapshot(ws[i].history, ws[i].items))
  {
    RunKeeps(ws, es, i);
    SnapshotDistinct(ws[i]);
  }

  /**
   * The observer's rule: a final entry is never replaced by a partial row; an older row changes
   * nothing; any other row is the new revision of its segment; other segments are not touched.
   */
  lemma MergeRule(m: map<string, Entry>, row: Row, segment: string)
    ensures
      var n := Merge(m, row);
      && (segment != row.segment ==> (segment in n <==> segment in m) && (segment in m ==> n[segment] == m[segment]))
      && row.segment in n
      && (row.segment in m && m[row.segment].final ==> n[row.segment].final)
      && (row.segment in m && row.sequence < m[row.segment].sequence ==> n == m)
      && (row.segment !in m || (m[row.segment].sequence <= row.sequence && (row.final || !m[row.segment].final)) ==>
            n[row.segment] == Entry(row.text, row.final, row.sequence))
  {
  }
}
