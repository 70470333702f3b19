/**
 * The serverless handler around the normaliser: the credential checks, the
 * scheduling request's failure reply, the choice of department list, and the
 * final sorted response. Network calls, environment reads, JSON parsing and
 * the clock are inputs.
 */
module Handler {
  import opened Wrappers
  import opened JsNumber
  import opened JsValues
  import opened Routing
  import opened Normalizer
  import opened Mapping

  /** The three secrets as read from the environment; None when the variable is unset. */
  datatype Env = Env(epicCsrfToken: Option<string>, epicCookie: Option<string>, mapboxToken: Option<string>)

  /** A secret counts as set when it is present and not empty (`!secret` is false). */
  predicate IsSet(secret: Option<string>) {
    secret.Some? && secret.value != ""
  }

  const EpicCredentialsMessage: string := "EPIC_CSRF_TOKEN or EPIC_COOKIE not set"
  const MapboxTokenMessage: string := "MAPBOX_TOKEN not set"

  /** Longest excerpt of a failing scheduling reply's body returned to the caller. */
  const MaxExcerpt: nat := 500

  /** The handler's reply. */
  datatype Response =
    | Locations(updatedAt: string, locations: seq<ClinicStatus>)  // 200 {updatedAt, locations}
    | ConfigMissing(error: string)                                // 500 {error}
    | EpicFailure(status: int, body: string)                      // 502 {error: "Epic API error", status, body}
    | ServerError                                                 // 500 {error: "Server error", detail}

  function StatusCode(r: Response): int {
    match r
    case Locations(_, _) => 200
    case ConfigMissing(_) => 500
    case EpicFailure(_, _) => 502
    case ServerError => 500
  }

  /**
   * The credential checks, made before any network call. A missing or empty Epic token or
   * cookie gives the Epic message even when the Mapbox token is missing too; the Mapbox
   * message comes only when both Epic secrets are set. Both are 500 replies.
   */
  function CheckConfig(env: Env): (r: Option<Response>)
    ensures r.None? <==> IsSet(env.epicCsrfToken) && IsSet(env.epicCookie) && IsSet(env.mapboxToken)
    ensures !IsSet(env.epicCsrfToken) || !IsSet(env.epicCookie) ==> r == Some(ConfigMissing(EpicCredentialsMessage))
    ensures r == Some(ConfigMissing(MapboxTokenMessage)) <==>
              IsSet(env.epicCsrfToken) && IsSet(env.epicCookie) && !IsSet(env.mapboxToken)
    ensures r.Some? ==> StatusCode(r.value) == 500
  {
    if !IsSet(env.epicCsrfToken) || !IsSet(env.epicCookie) then Some(ConfigMissing(EpicCredentialsMessage))
    else if !IsSet(env.mapboxToken) then Some(ConfigMissing(MapboxTokenMessage))
    else None
  }

  /**
   * `text.slice(0, 500)` of the failing reply's body, where a body that cannot be read
   * counts as "": a prefix of the body, all of it when it has at most 500 characters.
   */
  function BodyExcerpt(text: Option<string>): (r: string)
    ensures var body := if text.Some? then text.value else "";
            && |r| <= MaxExcerpt
            && r <= body
            && (|body| <= MaxExcerpt ==> r == body)
            && (|body| > MaxExcerpt ==> |r| == MaxExcerpt)
  {
    var body := if text.Some? then text.value else "";
    if |body| <= MaxExcerpt then body else body[..MaxExcerpt]
  }

  /** The scheduling provider's reply: either the request itself threw, or a status, body text and parsed body. */
  datatype EpicReply =
    | NetworkFailure
    | EpicReply(status: int, text: Option<string>, json: Option<JSValue>)

  /** `response.ok`. */
  predicate IsSuccess(status: int) {
    200 <= status <= 299
  }

  /**
   * `json.OnMyWayDepartments || json.Departments || json.departmentList || []`: the first
   * truthy of the three fields, the empty array when none is; reading them from a null
   * body throws (None).
   */
  function DepartmentList(json: JSValue): (r: Option<JSValue>)
    ensures r.None? <==> !Accessible(json)
    ensures r.Some? ==>
              var vals := Fields(json, ["OnMyWayDepartments", "Departments", "departmentList"]);
              if exists i :: FirstTruthyAt(vals, i)
              then exists i :: FirstTruthyAt(vals, i) && r.value == vals[i]
              else r.value == Arr([])
  {
    if !Accessible(json) then None
    else
      var a, b, c := Field(json, "OnMyWayDepartments"), Field(json, "Departments"), Field(json, "departmentList");
      var vals := Fields(json, ["OnMyWayDepartments", "Departments", "departmentList"]);
      assert vals == [a, b, c];
      assert Truthy(a) ==> FirstTruthyAt(vals, 0);
      assert !Truthy(a) && Truthy(b) ==> FirstTruthyAt(vals, 1);
      assert !Truthy(a) && !Truthy(b) && Truthy(c) ==> FirstTruthyAt(vals, 2);
      Some(Or(Or(Or(a, b), c), Arr([])))
  }

  /**
   * The elements `for (const d of list)` visits: an array's items, a string's characters as
   * one-character strings; any other value is not iterable and throws (None).
   */
  function Elements(list: JSValue): (r: Option<seq<JSValue>>)
    ensures r.Some? <==> list.Arr? || list.Str?
    ensures list.Arr? ==> r == Some(list.items)
    ensures list.Str? ==>
              (&& r.Some? && |r.value| == |list.s|
               && forall i :: 0 <= i < |list.s| ==> r.value[i] == Str([list.s[i]]))
  {
    match list
    case Arr(items) => Some(items)
    case Str(s) => Some(seq(|s|, i requires 0 <= i < |s| => Str([s[i]])))
    case _ => None
  }

  /**
   * The handler's early returns before the loop: the reply for missing secrets, a failed or
   * non-2xx scheduling call, or a body whose department list cannot be read or iterated;
   * otherwise the departments the loop visits. Anything thrown becomes a 500 ServerError.
   */
  function DepartmentsToVisit(env: Env, epic: EpicReply): (r: Result<seq<JSValue>, Response>)
    ensures CheckConfig(env).Some? ==> r == Err(CheckConfig(env).value)
    ensures CheckConfig(env).None? && epic.EpicReply? && !IsSuccess(epic.status) ==>
              r == Err(EpicFailure(epic.status, BodyExcerpt(epic.text)))
    ensures CheckConfig(env).None? && epic.NetworkFailure? ==> r == Err(ServerError)
    ensures r.Ok? <==>
              && CheckConfig(env).None? && epic.EpicReply? && IsSuccess(epic.status) && epic.json.Some?
              && DepartmentList(epic.json.value).Some? && Elements(DepartmentList(epic.json.value).value).Some?
    ensures r.Ok? ==> r.value == Elements(DepartmentList(epic.json.value).value).value
    ensures r.Err? ==> !r.error.Locations?
  {
    match CheckConfig(env)
    case Some(error) => Err(error)
    case None =>
      match epic
      case NetworkFailure => Err(ServerError)
      case EpicReply(status, text, json) =>
        if !IsSuccess(status) then Err(EpicFailure(status, BodyExcerpt(text)))
        else if json.None? then Err(ServerError)
        else
          match DepartmentList(json.value)
          case None => Err(ServerError)
          case Some(list) =>
            match Elements(list)
            case None => Err(ServerError)
            case Some(departments) => Ok(departments)
  }

  /**
   * Everything the handler decides before sorting: the error reply it returns, or the
   * unsorted records of the mapping loop. A department that throws gives a 500 ServerError.
   */
  function Outcome(h: Host, env: Env, epic: EpicReply, routing: nat -> Option<RawRoute>)
    : Result<seq<ClinicStatus>, Response>
  {
    match DepartmentsToVisit(env, epic)
    case Err(error) => Err(error)
    case Ok(departments) =>
      match MapAll(h, routing, departments)
      case None => Err(ServerError)
      case Some(m) => Ok(m.records)
  }

  /** Missing Epic credentials are reported before anything else is looked at. */
  lemma EpicCredentialsFirst(h: Host, env: Env, epic: EpicReply, routing: nat -> Option<RawRoute>)
    requires !IsSet(env.epicCsrfToken) || !IsSet(env.epicCookie)
    ensures Outcome(h, env, epic, routing) == Err(ConfigMissing(EpicCredentialsMessage))
  {
  }

  /** A non-2xx scheduling reply is a 502 carrying its status and at most 500 characters of its body. */
  lemma UpstreamFailureReply(h: Host, env: Env, epic: EpicReply, routing: nat -> Option<RawRoute>)
    requires CheckConfig(env).None?
    requires epic.EpicReply? && !IsSuccess(epic.status)
    ensures Outcome(h, env, epic, routing).Err?
    ensures var r := Outcome(h, env, epic, routing).error;
            && r.EpicFailure? && StatusCode(r) == 502 && r.status == epic.status
            && |r.body| <= MaxExcerpt
            && r.body <= (if epic.text.Some? then epic.text.value else "")
  {
  }

  /** A 503 reply with body "boom" gives 502 {status: 503, body: "boom"}. */
  lemma UpstreamFailureExample(h: Host, routing: nat -> Option<RawRoute>)
    ensures Outcome(h, Env(Some("t"), Some("c"), Some("m")), EpicReply(503, Some("boom"), None), routing)
            == Err(EpicFailure(503, "boom"))
  {
  }

  const RedmondName: string := "EvergreenHealth Urgent Care, Redmond"

  /** `{Name: "EvergreenHealth Urgent Care, Redmond", WaitTime: 10}`. */
  const RedmondDepartment: JSValue := Obj(map["Name" := Str(RedmondName), "WaitTime" := Num(Finite(10.0))])

  lemma RedmondDepartmentName(h: Host)
    ensures DepartmentName(h, RedmondDepartment) == Ok(RedmondName)
  {
    assert Field(RedmondDepartment, "Name") == Str(RedmondName);
    TrimmedIsFixed(RedmondName);
  }

  lemma RedmondMinutes(h: Host)
    ensures MinutesEstimate(h, RedmondDepartment) == Ok(Some(10.0))
  {
    assert Fields(RedmondDepartment, MinutesKeys)[0] == Num(Finite(10.0));
    assert FirstFiniteAt(h, Fields(RedmondDepartment, MinutesKeys), 0);
  }

  lemma RedmondOpen(h: Host)
    ensures OpenStatus(h, RedmondDepartment) == Ok(true)
  {
    var d := RedmondDepartment;
    assert d.fields.Keys == {"Name", "WaitTime"};
    assert ExplicitOpenFlag(d) == None;
    RedmondMinutes(h);
  }

  /** No range field is set, so the range is synthesised around the 10-minute estimate. */
  lemma RedmondRange(h: Host)
    ensures RangeString(h, RedmondDepartment, Some(10.0)) == Ok("5\U{2013}15 min")
  {
    var d := RedmondDepartment;
    assert forall i :: 0 <= i < |RangeKeys| ==> Field(d, RangeKeys[i]) == Undefined;
    SynthesizedRangeExamples(h);
  }

  lemma RedmondReadings(h: Host)
    ensures ReadDepartment(h, RedmondDepartment) == Ok(Readings(Some(10.0), "5\U{2013}15 min", true))
  {
    RedmondMinutes(h);
    RedmondRange(h);
    RedmondOpen(h);
  }

  lemma TenMinutesText(h: Host)
    ensures WaitText(h, Some(10.0)) == "10 min"
  {
    assert (10.0).Floor == 10;
    assert NatToDecimal(10) == NatToDecimal(1) + [DigitChar(0)] == "10";
  }

  /** The open Redmond, WA record: 10 minutes, "10 min", "5–15 min", a 15-minute, 2.5-mile drive. */
  const RedmondStatus: ClinicStatus :=
    ClinicStatus(RedmondName, "Redmond, WA", true, Some(10.0), "10 min", "5\U{2013}15 min", Some(15), Some(2.5))

  lemma RedmondNormalized(h: Host)
    ensures Normalize(h, RedmondName, Readings(Some(10.0), "5\U{2013}15 min", true), Some(DriveEstimate(15, 2.5)))
              == RedmondStatus
  {
    TenMinutesText(h);
    RedmondClinic();
  }

  /** The record built for RedmondDepartment when its routing call returns a 900 s, 4000 m route. */
  lemma RedmondRecord(h: Host, routing: nat -> Option<RawRoute>)
    requires routing(0) == Some(RawRoute(900.0, 4000.0))
    ensures MapAll(h, routing, [RedmondDepartment]) == Some(Mapped([RedmondStatus], [RedmondOrigin]))
  {
    RedmondDepartmentName(h);
    RedmondReadings(h);
    RedmondClinic();
    RedmondDrive(routing);
    SingleKnownDepartment(h, routing, RedmondDepartment, RedmondName, Readings(Some(10.0), "5\U{2013}15 min", true));
    RedmondNormalized(h);
  }

  lemma RedmondDrive(routing: nat -> Option<RawRoute>)
    requires routing(0) == Some(RawRoute(900.0, 4000.0))
    ensures DriveFromReply(routing(0)) == Some(DriveEstimate(15, 2.5))
  {
    FifteenMinuteExample();
  }

  lemma RedmondClinic()
    ensures RedmondName in ClinicCoords && ClinicCoords[RedmondName] == Clinic("Redmond, WA", RedmondOrigin)
  {
  }

  lemma RedmondReplyDepartments()
    ensures var json := Obj(map["OnMyWayDepartments" := Arr([RedmondDepartment])]);
            DepartmentsToVisit(Env(Some("t"), Some("c"), Some("m")), EpicReply(200, None, Some(json)))
              == Ok([RedmondDepartment])
  {
    var json := Obj(map["OnMyWayDepartments" := Arr([RedmondDepartment])]);
    assert CheckConfig(Env(Some("t"), Some("c"), Some("m"))) == None;
    assert Field(json, "OnMyWayDepartments") == Arr([RedmondDepartment]);
    assert DepartmentList(json) == Some(Arr([RedmondDepartment]));
  }

  /**
   * One department `{Name: "EvergreenHealth Urgent Care, Redmond", WaitTime: 10}` and a
   * 900 s, 4000 m route give one open Redmond record: 10 minutes, "10 min", "5–15 min",
   * a 15-minute, 2.5-mile drive.
   */
  lemma RedmondExample(h: Host, routing: nat -> Option<RawRoute>)
    requires routing(0) == Some(RawRoute(900.0, 4000.0))
    ensures var json := Obj(map["OnMyWayDepartments" := Arr([RedmondDepartment])]);
            var r := Outcome(h, Env(Some("t"), Some("c"), Some("m")), EpicReply(200, None, Some(json)), routing);
            && r.Ok? && |r.value| == 1
            && r.value[0].name == RedmondName && r.value[0].city == "Redmond, WA" && r.value[0].isOpen
            && r.value[0].minutes == Some(10.0) && r.value[0].waitText == "10 min"
            && r.value[0].range == "5\U{2013}15 min"
            && r.value[0].driveMinutes == Some(15) && r.value[0].driveMiles == Some(2.5)
  {
    RedmondReplyDepartments();
    RedmondRecord(h, routing);
  }

  /** The records of a successful run: no more than the departments, each one well formed. */
  lemma OutcomeRecords(h: Host, env: Env, epic: EpicReply, routing: nat -> Option<RawRoute>)
    requires Outcome(h, env, epic, routing).Ok?
    ensures DepartmentsToVisit(env, epic).Ok?
    ensures |Outcome(h, env, epic, routing).value| <= |DepartmentsToVisit(env, epic).value|
    ensures forall c :: c in Outcome(h, env, epic, routing).value ==> WellFormed(h, c)
  {
    MapAllInvariant(h, routing, DepartmentsToVisit(env, epic).value);
  }

  /**
   * `handler`: the reply Outcome decides on failure; otherwise status 200 with the records
   * sorted by name, a permutation of those the mapping loop built, each well formed.
   */
  method Handle(h: Host, env: Env, epic: EpicReply, routing: nat -> Option<RawRoute>, now: string)
    returns (resp: Response)
    requires CollationIsPreorder(h)
    ensures Outcome(h, env, epic, routing).Err? ==> resp == Outcome(h, env, epic, routing).error
    ensures Outcome(h, env, epic, routing).Ok? ==>
              && resp.Locations? && StatusCode(resp) == 200 && resp.updatedAt == now
              && SortedByName(h, resp.locations)
              && multiset(resp.locations) == multiset(Outcome(h, env, epic, routing).value)
              && forall c :: c in resp.locations ==> WellFormed(h, c)
  {
    var departments := DepartmentsToVisit(env, epic);
    if departments.Err? {
      return departments.error;
    }
    var mapped := MapDepartments(h, routing, departments.value);
    if mapped.None? {
      return ServerError;
    }
    OutcomeRecords(h, env, epic, routing);
    resp := SortedLocations(h, mapped.value.records, now);
  }

  /** The 200 reply: the records copied into an array and sorted there by name. */
  method SortedLocations(h: Host, records: seq<ClinicStatus>, now: string) returns (resp: Response)
    requires CollationIsPreorder(h)
    requires forall c :: c in records ==> WellFormed(h, c)
    ensures resp.Locations? && StatusCode(resp) == 200 && resp.updatedAt == now
    ensures SortedByName(h, resp.locations)
    ensures multiset(resp.locations) == multiset(records)
    ensures forall c :: c in resp.locations ==> WellFormed(h, c)
  {
    var a := new ClinicStatus[|records|](i requires 0 <= i < |records| => records[i]);
    assert a[..] == records;
    SortByName(h, a);
    forall c | c in a[..]
      ensures WellFormed(h, c)
    {
      assert c in multiset(a[..]);
      assert c in records;
    }
    resp := Locations(now, a[..]);
  }
}
