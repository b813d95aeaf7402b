/**
 * The TranscriptHistory of src/aida_agent/transcript_history.py, updating its fields in place.
 * Its contracts are the steps of modules History and Paging.
 */
module TranscriptHistories {
  import opened Wrappers
  import opened Text
  import H = History
  import P = Paging
  import T = Transfer

  const QUEUE_LIMIT: nat := 128

  /** What the room says of the caller of get_transcript. */
  datatype Caller = Caller(identity: string, present: bool, observes: Option<string>)

  class TranscriptHistory {
    const callId: string
    const roomName: string
    var sequence: nat
    var committed: map<string, (string, nat)>
    var pending: Option<H.Row>
    var callerFinals: seq<string>
    var snapshots: P.Snapshots
    var queue: seq<H.Row>
    var closed: bool

    constructor (callId: string, roomName: string)
      ensures History() == H.NEW_HISTORY && snapshots == map[] && queue == []
      ensures this.callId == callId && this.roomName == roomName
    {
      this.callId, this.roomName := callId, roomName;
      sequence, committed, pending, callerFinals := 0, map[], None, [];
      snapshots, queue, closed := map[], [], false;
    }

    function History(): H.HistoryState
      reads this
    {
      H.HistoryState(sequence, committed, pending, callerFinals, closed)
    }

    /** What the bounded queue holds after a row, if there is one. */
    function Queued(row: Option<H.Row>): seq<H.Row>
      reads this
    {
      if row.Some? && |queue| < QUEUE_LIMIT then queue + [row.value] else queue
    }

    /** _row */
    method NextRow(id: string, segment: string, role: H.Role, text: string, final: bool) returns (row: H.Row)
      modifies this`sequence
      ensures sequence == old(sequence) + 1 && row == H.Row(id, segment, role, text, final, sequence)
    {
      sequence := sequence + 1;
      return H.Row(id, segment, role, text, final, sequence);
    }

    method Enqueue(row: H.Row)
      modifies this`queue
      ensures queue == old(Queued(Some(row)))
    {
      if |queue| < QUEUE_LIMIT {
        queue := queue + [row];
      }
    }

    /** uuid is the one that would be drawn. */
    method Caller(text: string, final: bool, uuid: string)
      modifies this
      ensures
        var made := H.Caller(old(History()), text, final, uuid);
        History() == made.state && queue == old(Queued(made.row)) && snapshots == old(snapshots)
    {
      StripBlank(text);
      if closed || Strip(text) == "" {
        return;
      }
      Heard(text, final, uuid);
    }

    /** caller() for text that is not blank. */
    method Heard(text: string, final: bool, uuid: string)
      requires !closed && !Blank(text)
      modifies this`sequence, this`pending, this`callerFinals, this`queue
      ensures
        var made := H.Caller(old(History()), text, final, uuid);
        History() == made.state && queue == old(Queued(made.row))
    {
      var segment := if pending.Some? then pending.value.segment else "caller-" + uuid;
      var combined := H.Join(callerFinals + [text]);
      var row := NextRow(segment, segment, H.User, combined, false);
      pending := Some(row);
      if final {
        callerFinals := callerFinals + [text];
      }
      Enqueue(row);
    }

    method Item(item: H.Item)
      modifies this
      ensures
        var made := H.OnItem(old(History()), item);
        History() == made.state && queue == old(Queued(made.row)) && snapshots == old(snapshots)
    {
      if closed || !(item.role.User? || item.role.Assistant?) || item.text == "" {
        return;
      }
      var segment := if item.role.User? && pending.Some? then pending.value.segment else item.id;
      var row := NextRow(item.id, segment, item.role, item.text, true);
      committed := committed[item.id := (segment, row.sequence)];
      if item.role.User? {
        pending := None;
        callerFinals := [];
      }
      Enqueue(row);
    }

    method Snapshot(items: seq<H.Item>) returns (rows: seq<H.Row>)
      ensures rows == H.Snapshot(History(), items)
    {
      rows := [];
      var i := 0;
      while i < |items|
        invariant 0 <= i <= |items| && rows == H.CommittedRows(History(), items[..i])
      {
        assert items[..i + 1][..i] == items[..i];
        var item := items[i];
        if item.message && (item.role.User? || item.role.Assistant?) && item.text != "" {
          var segment, order := item.id, 0;
          if item.id in committed {
            segment, order := committed[item.id].0, committed[item.id].1;
          }
          rows := rows + [H.Row(item.id, segment, item.role, item.text, true, order)];
        }
        i := i + 1;
      }
      assert items[..i] == items;
      if pending.Some? {
        rows := rows + [pending.value];
      }
    }

    predicate Authorized(caller: Caller, available: bool)
      reads this
    {
      && !closed && available && caller.present && StartsWith(caller.identity, "admin-observer-")
      && caller.observes == Some(roomName)
    }

    /** The call as the paging model sees it, with the snapshot of this moment. */
    function Ask(caller: Caller, available: bool, request: P.Request, now: int, uuid: string, items: seq<H.Item>): P.Ask
      reads this
    {
      P.Ask(caller.identity, Authorized(caller, available), request, now, uuid,
            T.SnapshotText(callId, H.Snapshot(History(), items)))
    }

    /** The dictionary comprehension that drops old snapshots. */
    method Prune(now: int)
      modifies this`snapshots
      ensures snapshots == P.Prune(old(snapshots), now)
      ensures forall id :: id in snapshots <==> id in old(snapshots) && now - old(snapshots)[id].at < 60000
      ensures forall id :: id in snapshots ==> snapshots[id] == old(snapshots)[id]
    {
      snapshots := map id | id in snapshots && now - snapshots[id].at < P.LIFETIME_MS :: snapshots[id];
    }

    /** items is session.history at the call; uuid is the one that would be drawn. */
    method GetTranscript(caller: Caller, available: bool, request: P.Request, now: int, uuid: string,
                         items: seq<H.Item>)
      returns (reply: P.Reply)
      modifies this`snapshots
      ensures reply == P.RpcError(2001) <==>
                || closed || !available || !caller.present || !("admin-observer-" <= caller.identity)
                || caller.observes != Some(roomName)
      ensures reply == P.RpcError(2001) ==> snapshots == old(snapshots)
      ensures P.Outcome(snapshots, reply)
                == P.Answer(old(snapshots), old(Ask(caller, available, request, now, uuid, items)))
    {
      if closed || !available || !caller.present || !StartsWith(caller.identity, "admin-observer-")
         || caller.observes != Some(roomName) {
        return P.RpcError(2001);
      }
      if request.Malformed? || request.offset < 0 {
        return P.RpcError(2002);
      }
      var offset := request.offset;
      Prune(now);
      if offset == 0 {
        var rows := Snapshot(items);
        var text := T.SnapshotText(callId, rows);
        if |text| > P.MAX_SNAPSHOT_CHARS {
          return P.RpcError(2003);
        }
        if |snapshots| >= P.MAX_TRANSFERS && caller.identity !in snapshots {
          return P.RpcError(2004);
        }
        snapshots := snapshots[caller.identity := P.Frozen(now, uuid, text)];
      }
      reply := Page(caller.identity, offset, request);
    }

    /** get_transcript from the lookup of the observer's snapshot. */
    method Page(identity: string, offset: nat, request: P.Request) returns (reply: P.Reply)
      requires request.Request? && request.offset == offset
      modifies this`snapshots
      ensures reply != P.RpcError(2001)
      ensures forall a: P.Ask :: a.identity == identity && a.request == request ==>
                P.Outcome(snapshots, reply) == P.Serve(old(snapshots), a, offset)
    {
      if identity !in snapshots || offset >= |snapshots[identity].text|
         || (offset != 0 && request.snapshotId != Some(snapshots[identity].token)) {
        return P.RpcError(2002);
      }
      var f := snapshots[identity];
      var end := if offset + P.PAGE_CHARS < |f.text| then offset + P.PAGE_CHARS else |f.text|;
      if end == |f.text| {
        snapshots := snapshots - {identity};
      }
      return P.Page(f.token, f.text[offset..end], if end < |f.text| then Some(end) else None);
    }

    /** _publish takes the next row to send. */
    method Get() returns (row: H.Row)
      requires queue != []
      modifies this`queue
      ensures row == old(queue)[0] && queue == old(queue)[1..]
    {
      row := queue[0];
      queue := queue[1..];
    }

    method Close()
      modifies this`closed, this`snapshots
      ensures History() == old(History()).(closed := true) && snapshots == map[]
    {
      closed := true;
      snapshots := map[];
    }
  }
}
