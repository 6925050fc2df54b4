/**
 * The `spot_camera_event` table that the handler writes to (app.py lines
 * 24-45 and 53-60), held in memory: an append that hands out a fresh id,
 * and an `UPDATE ... SET status = ... WHERE id = ...`.
 */
module EventLog {
  import opened Wrappers
  import opened JsonValue

  /** The values the shown handler writes to the `status` column. */
  datatype Status = Received | Unauthorized

  /** The `raw_payload` column: every request header and the parsed payload, as received. */
  datatype RawPayload = RawPayload(headers: map<string, string>, payload: Json)

  /** One row; `eventTs` is JNull where the column is NULL. */
  datatype EventRow = EventRow(
    id: nat,
    cameraId: Option<string>,
    eventTs: Json,
    rawPayload: RawPayload,
    status: Status)

  /** One write to the table, in the order the handler issues them. */
  datatype Write = Inserted(id: nat) | StatusSet(id: nat, status: Status)

  /** Ids come from a sequence: every row's id is below the next one to hand out, in insertion order. */
  predicate IdsIssued(rows: seq<EventRow>, nextId: nat) {
    && (forall i :: 0 <= i < |rows| ==> rows[i].id < nextId)
    && (forall i, j :: 0 <= i < j < |rows| ==> rows[i].id < rows[j].id)
  }

  /** Appending a row under the next id keeps the ids issued from the sequence. */
  lemma AppendKeepsIdsIssued(rows: seq<EventRow>, nextId: nat, row: EventRow)
    requires IdsIssued(rows, nextId) && row.id == nextId
    ensures IdsIssued(rows + [row], nextId + 1)
  {
    var r := rows + [row];
    assert forall i :: 0 <= i < |rows| ==> r[i] == rows[i];
  }

  /** The table after `UPDATE spot_camera_event SET status = <status> WHERE id = <id>`. */
  function SetStatusWhere(rows: seq<EventRow>, id: nat, status: Status): (r: seq<EventRow>)
    ensures |r| == |rows|
    ensures forall i :: 0 <= i < |rows| && rows[i].id == id ==> r[i] == rows[i].(status := status)
    ensures forall i :: 0 <= i < |rows| && rows[i].id != id ==> r[i] == rows[i]
  {
    if rows == [] then []
    else
      var head := if rows[0].id == id then rows[0].(status := status) else rows[0];
      [head] + SetStatusWhere(rows[1..], id, status)
  }

  /** The update keeps every id, so ids stay issued from the sequence. */
  lemma SetStatusKeepsIdsIssued(rows: seq<EventRow>, nextId: nat, id: nat, status: Status)
    requires IdsIssued(rows, nextId)
    ensures IdsIssued(SetStatusWhere(rows, id, status), nextId)
  {
    var r := SetStatusWhere(rows, id, status);
    assert forall i :: 0 <= i < |rows| ==> r[i].id == rows[i].id;
  }

  /** With ids from a sequence, the update touches the one row holding `id` and only its status. */
  lemma {:induction false} SetStatusTouchesOneRow(rows: seq<EventRow>, nextId: nat, k: nat, status: Status)
    requires IdsIssued(rows, nextId)
    requires k < |rows|
    ensures SetStatusWhere(rows, rows[k].id, status) == rows[k := rows[k].(status := status)]
  {
    var r := SetStatusWhere(rows, rows[k].id, status);
    forall i | 0 <= i < |rows| && i != k ensures rows[i].id != rows[k].id {
      if i < k { assert rows[i].id < rows[k].id; } else { assert rows[k].id < rows[i].id; }
    }
    assert r == rows[k := rows[k].(status := status)];
  }

  /** An update for an id no row holds leaves the table as it was. */
  lemma {:induction false} SetStatusMissingIdIsNoop(rows: seq<EventRow>, id: nat, status: Status)
    requires forall i :: 0 <= i < |rows| ==> rows[i].id != id
    ensures SetStatusWhere(rows, id, status) == rows
  {
    var r := SetStatusWhere(rows, id, status);
    assert forall i :: 0 <= i < |rows| ==> r[i] == rows[i];
  }

  /** The `spot_camera_event` table, with the sequence that issues its ids. */
  class EventTable {
    var rows: seq<EventRow>
    var nextId: nat
    /** Every write made to the table, oldest first. */
    ghost var writes: seq<Write>

    ghost predicate Valid()
      reads this
    {
      IdsIssued(rows, nextId)
    }

    /** An empty table whose sequence starts at 1. */
    constructor ()
      ensures Valid()
      ensures rows == [] && nextId == 1 && writes == []
    {
      rows := [];
      nextId := 1;
      writes := [];
    }

    /** `INSERT ... VALUES (camera_id, event_ts, raw_payload, 'received') RETURNING id`. */
    method Insert(cameraId: Option<string>, eventTs: Json, rawPayload: RawPayload) returns (id: nat)
      requires Valid()
      modifies this
      ensures Valid()
      ensures id == old(nextId) && nextId == id + 1
      ensures forall i :: 0 <= i < |old(rows)| ==> old(rows)[i].id != id
      ensures rows == old(rows) + [EventRow(id, cameraId, eventTs, rawPayload, Received)]
      ensures writes == old(writes) + [Inserted(id)]
    {
      id := nextId;
      rows := rows + [EventRow(id, cameraId, eventTs, rawPayload, Received)];
      nextId := nextId + 1;
      writes := writes + [Inserted(id)];
    }

    /** `UPDATE spot_camera_event SET status = <status> WHERE id = <id>`. */
    method UpdateStatus(id: nat, status: Status)
      requires Valid()
      modifies this
      ensures Valid()
      ensures nextId == old(nextId)
      ensures rows == SetStatusWhere(old(rows), id, status)
      ensures writes == old(writes) + [StatusSet(id, status)]
    {
      SetStatusKeepsIdsIssued(rows, nextId, id, status);
      rows := SetStatusWhere(rows, id, status);
      writes := writes + [StatusSet(id, status)];
    }
  }
}
