/**
 * The `spot_exit` webhook handler up to its first return (app.py lines
 * 4-61): log the delivery as a `received` row before looking at anything
 * else, then mark that row `unauthorized` and answer `{"status": "logged"}`
 * with 200 when either auth header is missing or empty.
 */
module SpotExit {
  import opened Wrappers
  import opened JsonValue
  import opened Payload
  import opened EventLog

  const SignatureHeader: string := "Spot-Webhook-Signature"
  const MetaHeader: string := "Spot-Webhook-Meta"

  /** `request.headers.get(name)`: the header's text, or None when it is absent. */
  function HeaderGet(headers: map<string, string>, name: string): Json {
    if name in headers then JStr(headers[name]) else JNull
  }

  /** `request.headers.get(name)` is truthy: the header is there and not empty. */
  predicate HeaderGiven(headers: map<string, string>, name: string)
    ensures HeaderGiven(headers, name) <==> name in headers && headers[name] != ""
  {
    Truthy(HeaderGet(headers, name))
  }

  /** The negation of the condition on line 52: both auth headers are there and not empty. */
  predicate AuthHeadersGiven(headers: map<string, string>)
    ensures AuthHeadersGiven(headers) <==>
              && SignatureHeader in headers && headers[SignatureHeader] != ""
              && MetaHeader in headers && headers[MetaHeader] != ""
  {
    HeaderGiven(headers, SignatureHeader) && HeaderGiven(headers, MetaHeader)
  }

  datatype Response =
    /** An exception escaped before the database was reached; the framework answers 500. */
    | ServerError(failure: Failure)
    /** `{"status": "logged"}, 200`. */
    | Logged
    /** Both auth headers are given: handling goes on past line 61 with this event. */
    | Continue(eventId: nat)

  /** The effect of one delivery: its response, the table afterwards and the writes made. */
  datatype Outcome = Outcome(response: Response, rows: seq<EventRow>, nextId: nat, writes: seq<Write>)

  /** One delivery against a table holding `rows` whose sequence is at `nextId`. */
  function Handle(rows: seq<EventRow>, nextId: nat, headers: map<string, string>, body: Option<Json>): (o: Outcome)
    // a delivery that raises in lines 4-14 leaves the table alone; any other adds one row
    ensures Normalize(body).Failure? ==> o == Outcome(ServerError(Normalize(body).error), rows, nextId, [])
    ensures Normalize(body).Success? ==> |o.rows| == |rows| + 1 && o.nextId == nextId + 1
  {
    match Normalize(body)
    case Failure(f) => Outcome(ServerError(f), rows, nextId, [])
    case Success(n) => LogAndClassify(rows, nextId, headers, n)
  }

  /** Lines 24-61 for a normalised request: insert, then check the auth headers. */
  function LogAndClassify(rows: seq<EventRow>, nextId: nat, headers: map<string, string>, n: Normalized): (o: Outcome)
    ensures |o.rows| == |rows| + 1 && o.nextId == nextId + 1
    ensures |o.writes| > 0 && o.writes[0] == Inserted(nextId)
    ensures o.response == if AuthHeadersGiven(headers) then Continue(nextId) else Logged
    ensures o.rows[|rows|].status == if AuthHeadersGiven(headers) then Received else Unauthorized
  {
    var logged := rows + [EventRow(nextId, n.cameraId, n.eventTs, RawPayload(headers, n.payload), Received)];
    if !AuthHeadersGiven(headers) then
      Outcome(Logged, SetStatusWhere(logged, nextId, Unauthorized), nextId + 1,
              [Inserted(nextId), StatusSet(nextId, Unauthorized)])
    else
      Outcome(Continue(nextId), logged, nextId + 1, [Inserted(nextId)])
  }

  /** On a body that lines 4-14 accept, the delivery is lines 24-61 for the normalised request. */
  lemma HandleNormalized(rows: seq<EventRow>, nextId: nat, headers: map<string, string>, body: Option<Json>)
    requires Normalize(body).Success?
    ensures Handle(rows, nextId, headers, body) == LogAndClassify(rows, nextId, headers, Normalize(body).value)
  {
  }

  /** The handler itself, against the table. */
  method SpotExitHandler(table: EventTable, headers: map<string, string>, body: Option<Json>)
    returns (response: Response)
    requires table.Valid()
    modifies table
    ensures table.Valid()
    ensures var o := Handle(old(table.rows), old(table.nextId), headers, body);
            && response == o.response
            && table.rows == o.rows
            && table.nextId == o.nextId
            && table.writes == old(table.writes) + o.writes
  {
    var normalized := Normalize(body);
    if normalized.Failure? {
      return ServerError(normalized.error);
    }
    HandleNormalized(table.rows, table.nextId, headers, body);
    response := LogThenCheckAuth(table, headers, normalized.value);
  }

  /** Lines 24-61: insert the `received` row, then check the auth headers. */
  method LogThenCheckAuth(table: EventTable, headers: map<string, string>, n: Normalized)
    returns (response: Response)
    requires table.Valid()
    modifies table
    ensures table.Valid()
    ensures var o := LogAndClassify(old(table.rows), old(table.nextId), headers, n);
            && response == o.response
            && table.rows == o.rows
            && table.nextId == o.nextId
            && table.writes == old(table.writes) + o.writes
  {
    // The first write, made before any header is looked at.
    var eventId := table.Insert(n.cameraId, n.eventTs, RawPayload(headers, n.payload));
    if !HeaderGiven(headers, SignatureHeader) || !HeaderGiven(headers, MetaHeader) {
      table.UpdateStatus(eventId, Unauthorized);
      return Logged;
    }
    response := Continue(eventId);
  }

  /** The table after lines 24-61: the earlier rows, then one row under the fresh id. */
  lemma {:induction false} LogAndClassifyAppendsOne(rows: seq<EventRow>, nextId: nat, headers: map<string, string>, n: Normalized)
    requires IdsIssued(rows, nextId)
    ensures var o := LogAndClassify(rows, nextId, headers, n);
            && |o.rows| == |rows| + 1
            && o.rows[..|rows|] == rows
            && o.rows[|rows|].id == nextId
            && IdsIssued(o.rows, o.nextId)
  {
    var logged := rows + [EventRow(nextId, n.cameraId, n.eventTs, RawPayload(headers, n.payload), Received)];
    AppendKeepsIdsIssued(rows, nextId, logged[|rows|]);
    if !AuthHeadersGiven(headers) {
      SetStatusKeepsIdsIssued(logged, nextId + 1, nextId, Unauthorized);
      SetStatusTouchesOneRow(logged, nextId + 1, |rows|, Unauthorized);
      var updated := logged[|rows| := logged[|rows|].(status := Unauthorized)];
      assert updated[..|rows|] == rows;
    } else {
      assert logged[..|rows|] == rows;
    }
  }

  /**
   * Every delivery that gets past lines 4-14 adds exactly one row, under a
   * fresh id, and leaves the rows already there as they were, whatever its
   * headers.
   */
  lemma EveryDeliveryLogged(rows: seq<EventRow>, nextId: nat, headers: map<string, string>, body: Option<Json>)
    requires IdsIssued(rows, nextId)
    requires Normalize(body).Success?
    ensures var o := Handle(rows, nextId, headers, body);
            && |o.rows| == |rows| + 1
            && o.rows[..|rows|] == rows
            && (forall i :: 0 <= i < |rows| ==> rows[i].id != o.rows[|rows|].id)
            && IdsIssued(o.rows, o.nextId)
  {
    LogAndClassifyAppendsOne(rows, nextId, headers, Normalize(body).value);
  }

  /**
   * The row a delivery leaves behind: the extracted camera id and timestamp,
   * all headers and the payload unchanged, and status `unauthorized` exactly
   * when an auth header is missing or empty.
   */
  lemma LoggedRowContents(rows: seq<EventRow>, nextId: nat, headers: map<string, string>, body: Option<Json>)
    requires IdsIssued(rows, nextId)
    requires Normalize(body).Success?
    ensures var o := Handle(rows, nextId, headers, body);
            var n := Normalize(body).value;
            && |o.rows| == |rows| + 1
            && o.rows[|rows|] == EventRow(nextId, n.cameraId, n.eventTs, RawPayload(headers, PayloadOf(body)),
                                          if AuthHeadersGiven(headers) then Received else Unauthorized)
  {
  }

  /** The response: `logged` exactly for a missing or empty auth header, a server error exactly when lines 4-14 raise. */
  lemma ResponseClassification(rows: seq<EventRow>, nextId: nat, headers: map<string, string>, body: Option<Json>)
    ensures var o := Handle(rows, nextId, headers, body);
            && (o.response.ServerError? <==> Normalize(body).Failure?)
            && (o.response == Logged <==> Normalize(body).Success? && !AuthHeadersGiven(headers))
            && (o.response.Continue? ==> o.response.eventId == nextId)
  {
  }

  /**
   * The `unauthorized` update changes the status of the row just inserted and
   * nothing else: not the other rows, not its other columns, not the row count.
   */
  lemma UnauthorizedTouchesOnlyNewRow(rows: seq<EventRow>, nextId: nat, headers: map<string, string>, body: Option<Json>)
    requires IdsIssued(rows, nextId)
    requires Normalize(body).Success? && !AuthHeadersGiven(headers)
    ensures var n := Normalize(body).value;
            var received := rows + [EventRow(nextId, n.cameraId, n.eventTs, RawPayload(headers, n.payload), Received)];
            Handle(rows, nextId, headers, body).rows == received[|rows| := received[|rows|].(status := Unauthorized)]
  {
    var n := Normalize(body).value;
    var received := rows + [EventRow(nextId, n.cameraId, n.eventTs, RawPayload(headers, n.payload), Received)];
    assert Handle(rows, nextId, headers, body).rows == SetStatusWhere(received, nextId, Unauthorized);
    AppendKeepsIdsIssued(rows, nextId, received[|rows|]);
    SetStatusTouchesOneRow(received, nextId + 1, |rows|, Unauthorized);
  }

  /**
   * The writes: the insert comes first, before any header is examined, and at
   * most one status update follows, on the inserted row. A delivery that
   * raises in lines 4-14 writes nothing.
   */
  lemma WriteOrder(rows: seq<EventRow>, nextId: nat, headers: map<string, string>, body: Option<Json>)
    ensures var o := Handle(rows, nextId, headers, body);
            && (Normalize(body).Failure? ==> o.writes == [] && o.rows == rows && o.nextId == nextId)
            && (Normalize(body).Success? ==>
                  && 1 <= |o.writes| <= 2
                  && o.writes[0] == Inserted(nextId)
                  && (|o.writes| == 2 <==> !AuthHeadersGiven(headers))
                  && (forall k :: 1 <= k < |o.writes| ==> o.writes[k] == StatusSet(nextId, Unauthorized)))
  {
  }

  /** A body that is missing or not JSON is still logged, with no camera id and no timestamp. */
  lemma InvalidBodyStillLogged(rows: seq<EventRow>, nextId: nat, headers: map<string, string>)
    requires IdsIssued(rows, nextId)
    ensures var o := Handle(rows, nextId, headers, None);
            && |o.rows| == |rows| + 1
            && o.rows[|rows|].cameraId == None
            && o.rows[|rows|].eventTs == JNull
            && o.rows[|rows|].rawPayload == RawPayload(headers, JObj([]))
  {
    InvalidBodyIsEmptyObject();
  }

  /** Deliveries are not de-duplicated: the same request delivered twice is logged twice, under two ids. */
  lemma RedeliveryLoggedTwice(rows: seq<EventRow>, nextId: nat, headers: map<string, string>, body: Option<Json>)
    requires IdsIssued(rows, nextId)
    requires Normalize(body).Success?
    ensures var first := Handle(rows, nextId, headers, body);
            var second := Handle(first.rows, first.nextId, headers, body);
            && |second.rows| == |rows| + 2
            && second.rows[|rows|].id != second.rows[|rows| + 1].id
  {
    var first := Handle(rows, nextId, headers, body);
    EveryDeliveryLogged(rows, nextId, headers, body);
    EveryDeliveryLogged(first.rows, first.nextId, headers, body);
  }
}
