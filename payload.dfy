/**
 * The pure front of the `spot_exit` handler (app.py lines 4-14): the request
 * body becomes a payload dict, a camera id is picked out of it with a fixed
 * precedence and coerced to text, and the caller's timestamp is read.
 */
module Payload {
  import opened Wrappers
  import opened JsonValue

  /**
   * The one exception this part of the handler can raise: calling `.get` on
   * a value that is not a dict (`AttributeError: ... has no attribute 'get'`).
   */
  datatype Failure = NoGetAttribute(receiver: Json)

  /** `receiver.get(key, default)`. */
  function DictGet(receiver: Json, key: string, default: Json): (r: Result<Json, Failure>)
    ensures r.Failure? <==> !receiver.JObj?
    ensures r.Success? && !HasKey(receiver.members, key) ==> r.value == default
    ensures r.Success? && HasKey(receiver.members, key) ==>
              exists i :: 0 <= i < |receiver.members| && receiver.members[i] == (key, r.value)
                          && forall j :: i < j < |receiver.members| ==> receiver.members[j].0 != key
  {
    match receiver
    case JObj(members) => Success(Lookup(members, key).GetOr(default))
    case _ => Failure(NoGetAttribute(receiver))
  }

  /** `payload.get(key)` on a dict: the key's value, or None when it is absent. */
  function Field(payload: Json, key: string): Json
    requires payload.JObj?
  {
    DictGet(payload, key, JNull).value
  }

  /**
   * Line 4, `request.get_json(silent=True) or {}`. `body` is None when the
   * request carried no JSON or JSON that did not parse.
   */
  function PayloadOf(body: Option<Json>): (p: Json)
    ensures p == JObj([]) || (body == Some(p) && Truthy(p))
    ensures body.Some? && Truthy(body.value) ==> p == body.value
  {
    if body.Some? && Truthy(body.value) then body.value else JObj([])
  }

  /** Python's `v0 or v1 or ... or vn`: the first truthy operand, else the last one. */
  function OrChain(vs: seq<Json>): (r: Json)
    requires |vs| > 0
    ensures exists i :: 0 <= i < |vs| && r == vs[i] && (Truthy(r) || i == |vs| - 1)
                        && forall j :: 0 <= j < i ==> !Truthy(vs[j])
  {
    if |vs| == 1 || Truthy(vs[0]) then vs[0]
    else
      var r := OrChain(vs[1..]);
      ghost var i :| 0 <= i < |vs| - 1 && r == vs[1..][i] && (Truthy(r) || i == |vs| - 2)
                     && forall j :: 0 <= j < i ==> !Truthy(vs[1..][j]);
      assert forall j :: 0 <= j < i + 1 ==> !Truthy(vs[j]) by {
        forall j | 0 < j < i + 1 ensures !Truthy(vs[j]) { assert vs[j] == vs[1..][j - 1]; }
      }
      r
  }

  /**
   * Line 10, `payload.get("data", {}).get("camera", {}).get("id")`: a
   * missing `data` or `camera` counts as an empty dict, a missing `id` as None.
   */
  function NestedCameraId(payload: Json): (r: Result<Json, Failure>)
    requires payload.JObj?
    ensures r.Failure? <==>
              || (HasKey(payload.members, "data") && !Field(payload, "data").JObj?)
              || (HasKey(payload.members, "data") && Field(payload, "data").JObj?
                  && HasKey(Field(payload, "data").members, "camera")
                  && !Field(Field(payload, "data"), "camera").JObj?)
    ensures r.Success? ==>
              r.value == if HasKey(payload.members, "data")
                            && HasKey(Field(payload, "data").members, "camera")
                            && HasKey(Field(Field(payload, "data"), "camera").members, "id")
                         then Field(Field(Field(payload, "data"), "camera"), "id")
                         else JNull
  {
    var data := DictGet(payload, "data", JObj([])).value;
    match DictGet(data, "camera", JObj([]))
    case Failure(f) => Failure(f)
    case Success(camera) => DictGet(camera, "id", JNull)
  }

  /**
   * Lines 7-11, evaluated as Python does: `cameraId` is read only when
   * `camera_id` is falsy, and the nested path only when both are.
   */
  function RawCameraId(payload: Json): (r: Result<Json, Failure>)
    ensures !payload.JObj? ==> r.Failure?
    ensures payload.JObj? ==>
              var nested := NestedCameraId(payload);
              && (r.Failure? <==> !Truthy(Field(payload, "camera_id")) && !Truthy(Field(payload, "cameraId")) && nested.Failure?)
              && (r.Success? ==> r.value == OrChain([Field(payload, "camera_id"), Field(payload, "cameraId"), nested.GetOr(JNull)]))
  {
    match DictGet(payload, "camera_id", JNull)
    case Failure(f) => Failure(f)
    case Success(first) =>
      if Truthy(first) then Success(first)
      else
        var second := Field(payload, "cameraId");
        if Truthy(second) then Success(second) else NestedCameraId(payload)
  }

  /** Line 12, `str(camera_id) if camera_id is not None else None`. */
  function CoerceId(v: Json): (r: Option<string>)
    ensures r.None? <==> v == JNull
    ensures v.JStr? ==> r == Some(v.s)
    ensures v.JBool? ==> r == Some(if v.b then "True" else "False")
    ensures v.JInt? ==> r == Some(IntToDecimal(v.i)) && ParseInt(r.value) == Some(v.i)
    ensures r.Some? ==> (r.value == "" <==> v == JStr(""))
  {
    if v == JNull then None
    else
      StrEmptyOnlyForEmptyString(v);
      if v.JInt? then IntDecimalRoundTrip(v.i); Some(Str(v)) else Some(Str(v))
  }

  /** Lines 7-12: the camera id that is stored with the event. */
  function CameraId(payload: Json): (r: Result<Option<string>, Failure>)
    requires payload.JObj?
    // a truthy `camera_id` wins over everything else
    ensures Truthy(Field(payload, "camera_id")) ==> r == Success(CoerceId(Field(payload, "camera_id")))
    // then a truthy `cameraId`
    ensures !Truthy(Field(payload, "camera_id")) && Truthy(Field(payload, "cameraId")) ==>
              r == Success(CoerceId(Field(payload, "cameraId")))
    // otherwise the nested value is taken as it is, falsy or not
    ensures !Truthy(Field(payload, "camera_id")) && !Truthy(Field(payload, "cameraId")) ==>
              match NestedCameraId(payload)
              case Success(v) => r == Success(CoerceId(v))
              case Failure(f) => r == Failure(f)
    // no id is stored exactly when the first two are falsy and the nested one is None
    ensures r == Success(None) <==>
              !Truthy(Field(payload, "camera_id")) && !Truthy(Field(payload, "cameraId"))
              && NestedCameraId(payload) == Success(JNull)
  {
    match RawCameraId(payload)
    case Failure(f) => Failure(f)
    case Success(v) => Success(CoerceId(v))
  }

  /** Line 14, `payload.get("timestamp")`: None when absent or null. */
  function Timestamp(payload: Json): (t: Json)
    requires payload.JObj?
    ensures !HasKey(payload.members, "timestamp") ==> t == JNull
    ensures HasKey(payload.members, "timestamp") ==>
              exists i :: 0 <= i < |payload.members| && payload.members[i] == ("timestamp", t)
                          && forall j :: i < j < |payload.members| ==> payload.members[j].0 != "timestamp"
  {
    Field(payload, "timestamp")
  }

  /** What lines 4-14 hand to the database insert. */
  datatype Normalized = Normalized(payload: Json, cameraId: Option<string>, eventTs: Json)

  /** Lines 4-14 as a whole; a Failure is an exception raised before the database is reached. */
  function Normalize(body: Option<Json>): (r: Result<Normalized, Failure>)
    ensures r.Success? ==> r.value.payload == PayloadOf(body) && r.value.payload.JObj?
    ensures !PayloadOf(body).JObj? ==> r.Failure?
    ensures PayloadOf(body).JObj? ==>
              && (r.Failure? <==> CameraId(PayloadOf(body)).Failure?)
              && (r.Success? ==> Success(r.value.cameraId) == CameraId(PayloadOf(body))
                                 && r.value.eventTs == Timestamp(PayloadOf(body)))
  {
    var payload := PayloadOf(body);
    match DictGet(payload, "camera_id", JNull)
    case Failure(f) => Failure(f)
    case Success(_) =>
      match CameraId(payload)
      case Failure(f) => Failure(f)
      case Success(id) => Success(Normalized(payload, id, Timestamp(payload)))
  }

  /** A body that is missing or not JSON is read as `{}`: no id, no timestamp, no failure. */
  lemma InvalidBodyIsEmptyObject()
    ensures Normalize(None) == Success(Normalized(JObj([]), None, JNull))
  {
    assert NestedCameraId(JObj([])) == Success(JNull);
  }

  /** Absent `data` or `camera` keys default to `{}`, so they never make extraction fail. */
  lemma AbsentKeysNeverFail(payload: Json)
    requires payload.JObj?
    requires HasKey(payload.members, "data") ==>
               && Field(payload, "data").JObj?
               && (HasKey(Field(payload, "data").members, "camera") ==> Field(Field(payload, "data"), "camera").JObj?)
    ensures CameraId(payload).Success?
  {
  }

  /**
   * A falsy but present nested id is stored as its text: after an empty
   * `camera_id`, `{"camera_id": "", "data": {"camera": {"id": 0}}}` yields "0".
   */
  lemma FalsyNestedIdKept()
    ensures var payload := JObj([("camera_id", JStr("")), ("data", JObj([("camera", JObj([("id", JInt(0))]))]))]);
            CameraId(payload) == Success(Some("0"))
  {
    var camera := JObj([("id", JInt(0))]);
    var data := JObj([("camera", camera)]);
    var payload := JObj([("camera_id", JStr("")), ("data", data)]);
    assert payload.members[0].0 == "camera_id" && payload.members[1].0 == "data";
    assert Field(payload, "camera_id") == JStr("");
    assert !HasKey(payload.members, "cameraId");
    assert Field(payload, "data") == data;
    assert data.members[0].0 == "camera";
    assert Field(data, "camera") == camera;
    assert camera.members[0].0 == "id";
    assert Field(camera, "id") == JInt(0);
    assert Str(JInt(0)) == "0";
  }

  /** A body that is truthy but not an object (`[1]`, `"x"`, `5`) raises before anything is logged. */
  lemma NonObjectBodyFails(v: Json)
    requires Truthy(v) && !v.JObj?
    ensures Normalize(Some(v)).Failure?
  {
  }

  /** `{"data": null}` raises on the nested path, before anything is logged. */
  lemma NullDataFails()
    ensures Normalize(Some(JObj([("data", JNull)]))).Failure?
  {
    var payload := JObj([("data", JNull)]);
    assert payload.members[0].0 == "data";
    assert HasKey(payload.members, "data") && Field(payload, "data") == JNull;
  }
}
