/**
 * The event envelope (schema v1.0) and `Envelope.model_validate`: a structural decode
 * of a JSON object that enumerates the known fields, applies their defaults, ignores
 * every other key, and reports the failures in field-declaration order, nested models'
 * failures at their parent field's position, each under its path (`loc`).
 */
module Envelope {
  import opened Wrappers
  import opened Json

  /**
   * A decoded `datetime`: `micros` is the instant in microseconds since the Unix epoch
   * (UTC) when the value carries an offset; `utcOffset` is None for a naive value.
   */
  datatype DateTime = DateTime(micros: int, utcOffset: Option<int>)

  /** What the datetime validator makes of one JSON value: a datetime or a parse error. */
  datatype TimeParse = TimeOk(dt: DateTime) | TimeError(msg: string)

  datatype Status = SuccessStatus | ErrorStatus | WarningStatus | InfoStatus

  function StatusText(s: Status): string
  {
    match s
    case SuccessStatus => "success"
    case ErrorStatus => "error"
    case WarningStatus => "warning"
    case InfoStatus => "info"
  }

  datatype PipelineInfo = PipelineInfo(name: string, dcc: Option<string>)

  datatype HostInfo = HostInfo(
    hostname: string, user: string, os: Option<string>, osRelease: Option<string>, pid: Option<int>)

  datatype SessionInfo = SessionInfo(sessionId: string, actionId: Option<string>)

  /** Optional project context; every field is sparse. */
  datatype ScopeInfo = ScopeInfo(
    show: Option<string>, sequence: Option<string>, shot: Option<string>,
    asset: Option<string>, department: Option<string>, task: Option<string>)

  const EmptyScope := ScopeInfo(None, None, None, None, None, None)

  datatype ErrorInfo = ErrorInfo(code: Option<string>, message: Option<string>)

  /** One validated telemetry event. */
  datatype Envelope = Envelope(
    schemaVersion: string,
    eventId: string,
    eventType: string,
    occurredAtUtc: DateTime,
    status: Status,
    pipeline: PipelineInfo,
    host: HostInfo,
    session: SessionInfo,
    payload: seq<(string, Json)>,
    metrics: seq<(string, Json)>,
    scope: ScopeInfo,
    error: Option<ErrorInfo>)

  /** The kinds of validation failure the decode can report. */
  datatype ErrorType =
    | Missing
    | StringType
    | IntType
    | IntParsing
    | IntFromFloat
    | LiteralError
    | DictType
    | ModelType(className: string)
    | DatetimeInvalid(detail: string)
    | TimezoneAware

  /** One validation failure: its kind and the path of the offending field. */
  datatype FieldError = FieldError(errorType: ErrorType, loc: seq<string>)

  /** The human-readable message attached to each kind of failure. */
  function ErrorMessage(t: ErrorType): (r: string)
    ensures !t.DatetimeInvalid? ==> |r| > 0
    ensures t.DatetimeInvalid? ==> r == t.detail
    ensures t.ModelType? ==> |r| >= |t.className| && r[|r| - |t.className|..] == t.className
  {
    match t
    case Missing => "Field required"
    case StringType => "Input should be a valid string"
    case IntType => "Input should be a valid integer"
    case IntParsing => "Input should be a valid integer, unable to parse string as an integer"
    case IntFromFloat => "Input should be a valid integer, got a number with a fractional part"
    case LiteralError => "Input should be 'success', 'error', 'warning' or 'info'"
    case DictType => "Input should be a valid dictionary"
    case ModelType(cls) => "Input should be a valid dictionary or instance of " + cls
    case DatetimeInvalid(detail) => detail
    case TimezoneAware => "Input should have timezone info"
  }

  type Decoded<T> = Result<T, seq<FieldError>>

  /** The failures a field decode contributes (none when it succeeded). */
  function Errs<T>(r: Decoded<T>): seq<FieldError>
  {
    if r.Success? then [] else r.error
  }

  /** The failures of a nested model, re-rooted under the parent field `key`. */
  function Under(key: string, errs: seq<FieldError>): (r: seq<FieldError>)
    ensures |r| == |errs|
    ensures forall k :: 0 <= k < |r| ==> r[k] == FieldError(errs[k].errorType, [key] + errs[k].loc)
  {
    seq(|errs|, k requires 0 <= k < |errs| => FieldError(errs[k].errorType, [key] + errs[k].loc))
  }

  /** Every failure of a nested model is reported, under its parent field. */
  lemma UnderContains(key: string, errs: seq<FieldError>, e: FieldError)
    requires e in errs
    ensures FieldError(e.errorType, [key] + e.loc) in Under(key, errs)
  {
    var k :| 0 <= k < |errs| && errs[k] == e;
    assert Under(key, errs)[k] == FieldError(e.errorType, [key] + e.loc);
  }

  // ---------------------------------------------------------------------
  // Field decoders, one per field shape
  // ---------------------------------------------------------------------

  /** The value of a required `str` field: present and a JSON string. */
  predicate IsStr(v: Option<Json>)
  {
    v.Some? && v.value.JString?
  }

  /** The value of a `str | None` field: absent, null or a JSON string. */
  predicate IsOptStr(v: Option<Json>)
  {
    v.None? || v.value.JNull? || v.value.JString?
  }

  /** The value of an `int | None` field: absent, null, a JSON integer or a JSON boolean. */
  predicate IsOptInt(v: Option<Json>)
  {
    v.None? || v.value.JNull? || v.value.JInt? || v.value.JBool?
  }

  /** What a required string field that is not a string fails with. */
  function StrError(v: Option<Json>): ErrorType
  {
    if v.None? then Missing else StringType
  }

  /**
   * The failure an `int` field reports for a value it refuses: a string it cannot parse,
   * a number with a fractional part, or any other shape.
   */
  function IntError(v: Option<Json>): ErrorType
  {
    if v.Some? && v.value.JString? then IntParsing
    else if v.Some? && v.value.JFloat? then IntFromFloat
    else IntType
  }

  /** A decoded optional string agrees with its JSON value: absent or null gives None. */
  predicate CarriesStr(v: Option<Json>, o: Option<string>)
  {
    if o.None? then v.None? || v == Some(JNull) else v == Some(JString(o.value))
  }

  /** A decoded optional integer agrees with its JSON value; `true` and `false` read as 1 and 0. */
  predicate CarriesInt(v: Option<Json>, o: Option<int>)
  {
    if o.None? then v.None? || v == Some(JNull)
    else v == Some(JInt(o.value)) || (v == Some(JBool(true)) && o.value == 1)
         || (v == Some(JBool(false)) && o.value == 0)
  }

  /** A required `str` field. */
  function RequiredStr(key: string, v: Option<Json>): (r: Decoded<string>)
    ensures r.Success? <==> IsStr(v)
    ensures r.Success? ==> v == Some(JString(r.value))
    ensures r.Failure? ==> r.error == [FieldError(StrError(v), [key])]
  {
    match v
    case None => Failure([FieldError(Missing, [key])])
    case Some(JString(s)) => Success(s)
    case Some(_) => Failure([FieldError(StringType, [key])])
  }

  /** An optional `str | None = None` field. */
  function OptionalStr(key: string, v: Option<Json>): (r: Decoded<Option<string>>)
    ensures r.Success? <==> IsOptStr(v)
    ensures r.Success? ==> CarriesStr(v, r.value)
    ensures r.Failure? ==> r.error == [FieldError(StringType, [key])]
  {
    match v
    case None => Success(None)
    case Some(JNull) => Success(None)
    case Some(JString(s)) => Success(Some(s))
    case Some(_) => Failure([FieldError(StringType, [key])])
  }

  /** An optional `int | None = None` field; a JSON boolean is read as 0 or 1. */
  function OptionalInt(key: string, v: Option<Json>): (r: Decoded<Option<int>>)
    ensures r.Success? <==> IsOptInt(v)
    ensures r.Success? ==> CarriesInt(v, r.value)
    ensures r.Failure? ==> r.error == [FieldError(IntError(v), [key])]
  {
    match v
    case None => Success(None)
    case Some(JNull) => Success(None)
    case Some(JInt(i)) => Success(Some(i))
    case Some(JBool(b)) => Success(Some(if b then 1 else 0))
    case Some(_) => Failure([FieldError(IntError(v), [key])])
  }

  /** A required timezone-aware datetime; `parseTime` is the datetime parser. */
  function RequiredAwareDateTime(key: string, v: Option<Json>, parseTime: Json -> TimeParse)
    : (r: Decoded<DateTime>)
    ensures r.Failure? ==> r.error != []
    ensures r.Success? ==> v.Some? && parseTime(v.value) == TimeOk(r.value) && r.value.utcOffset.Some?
    ensures v.Some? && parseTime(v.value).TimeOk? && parseTime(v.value).dt.utcOffset.Some?
            ==> r == Success(parseTime(v.value).dt)
  {
    match v
    case None => Failure([FieldError(Missing, [key])])
    case Some(v) =>
      match parseTime(v)
      case TimeError(msg) => Failure([FieldError(DatetimeInvalid(msg), [key])])
      case TimeOk(dt) =>
        if dt.utcOffset.None? then Failure([FieldError(TimezoneAware, [key])]) else Success(dt)
  }

  /** The `Literal["success", "error", "warning", "info"]` status field. */
  function RequiredStatus(key: string, v: Option<Json>): (r: Decoded<Status>)
    ensures r.Failure? ==> r.error != []
  {
    match v
    case None => Failure([FieldError(Missing, [key])])
    case Some(JString(s)) =>
      if s == "success" then Success(SuccessStatus)
      else if s == "error" then Success(ErrorStatus)
      else if s == "warning" then Success(WarningStatus)
      else if s == "info" then Success(InfoStatus)
      else Failure([FieldError(LiteralError, [key])])
    case Some(_) => Failure([FieldError(LiteralError, [key])])
  }

  /** A `dict[str, Any] = {}` field: an object's members are kept as they are. */
  function DictOrEmpty(key: string, v: Option<Json>): (r: Decoded<seq<(string, Json)>>)
    ensures r.Success? <==> v.None? || v.value.JObject?
    ensures r.Success? ==> r.value == if v.None? then [] else v.value.members
    ensures r.Failure? ==> r.error == [FieldError(DictType, [key])]
  {
    match v
    case None => Success([])
    case Some(JObject(m)) => Success(m)
    case Some(_) => Failure([FieldError(DictType, [key])])
  }

  // ---------------------------------------------------------------------
  // Nested models
  // ---------------------------------------------------------------------

  /** The decoded `pipeline` agrees with the object it came from. */
  predicate PipelineCarries(ms: seq<(string, Json)>, p: PipelineInfo)
  {
    Get(ms, "name") == Some(JString(p.name)) && CarriesStr(Get(ms, "dcc"), p.dcc)
  }

  /** The decoded `host` agrees with the object it came from. */
  predicate HostCarries(ms: seq<(string, Json)>, h: HostInfo)
  {
    && Get(ms, "hostname") == Some(JString(h.hostname))
    && Get(ms, "user") == Some(JString(h.user))
    && CarriesStr(Get(ms, "os"), h.os)
    && CarriesStr(Get(ms, "os_release"), h.osRelease)
    && CarriesInt(Get(ms, "pid"), h.pid)
  }

  /** The decoded `session` agrees with the object it came from. */
  predicate SessionCarries(ms: seq<(string, Json)>, s: SessionInfo)
  {
    Get(ms, "session_id") == Some(JString(s.sessionId)) && CarriesStr(Get(ms, "action_id"), s.actionId)
  }

  /** The decoded `scope` agrees with the object it came from. */
  predicate ScopeCarries(ms: seq<(string, Json)>, s: ScopeInfo)
  {
    && CarriesStr(Get(ms, "show"), s.show)
    && CarriesStr(Get(ms, "sequence"), s.sequence)
    && CarriesStr(Get(ms, "shot"), s.shot)
    && CarriesStr(Get(ms, "asset"), s.asset)
    && CarriesStr(Get(ms, "department"), s.department)
    && CarriesStr(Get(ms, "task"), s.task)
  }

  /** The decoded `error` block agrees with the object it came from. */
  predicate ErrorInfoCarries(ms: seq<(string, Json)>, e: ErrorInfo)
  {
    CarriesStr(Get(ms, "code"), e.code) && CarriesStr(Get(ms, "message"), e.message)
  }

  function DecodePipeline(ms: seq<(string, Json)>): (r: Decoded<PipelineInfo>)
    ensures r.Success? <==> IsStr(Get(ms, "name")) && IsOptStr(Get(ms, "dcc"))
    ensures r.Success? ==> PipelineCarries(ms, r.value)
    ensures !IsStr(Get(ms, "name")) ==> r.Failure? && FieldError(StrError(Get(ms, "name")), ["name"]) in r.error
    ensures !IsOptStr(Get(ms, "dcc")) ==> r.Failure? && FieldError(StringType, ["dcc"]) in r.error
  {
    var name := RequiredStr("name", Get(ms, "name"));
    var dcc := OptionalStr("dcc", Get(ms, "dcc"));
    var errs := Errs(name) + Errs(dcc);
    if errs == [] then Success(PipelineInfo(name.value, dcc.value)) else Failure(errs)
  }

  function DecodeHost(ms: seq<(string, Json)>): (r: Decoded<HostInfo>)
    ensures r.Success? <==>
              && IsStr(Get(ms, "hostname")) && IsStr(Get(ms, "user"))
              && IsOptStr(Get(ms, "os")) && IsOptStr(Get(ms, "os_release")) && IsOptInt(Get(ms, "pid"))
    ensures r.Success? ==> HostCarries(ms, r.value)
    ensures !IsStr(Get(ms, "hostname")) ==>
              r.Failure? && FieldError(StrError(Get(ms, "hostname")), ["hostname"]) in r.error
    ensures !IsStr(Get(ms, "user")) ==> r.Failure? && FieldError(StrError(Get(ms, "user")), ["user"]) in r.error
    ensures !IsOptStr(Get(ms, "os")) ==> r.Failure? && FieldError(StringType, ["os"]) in r.error
    ensures !IsOptStr(Get(ms, "os_release")) ==> r.Failure? && FieldError(StringType, ["os_release"]) in r.error
    ensures !IsOptInt(Get(ms, "pid")) ==> r.Failure? && FieldError(IntError(Get(ms, "pid")), ["pid"]) in r.error
  {
    var hostname := RequiredStr("hostname", Get(ms, "hostname"));
    var user := RequiredStr("user", Get(ms, "user"));
    var os := OptionalStr("os", Get(ms, "os"));
    var osRelease := OptionalStr("os_release", Get(ms, "os_release"));
    var pid := OptionalInt("pid", Get(ms, "pid"));
    var errs := Errs(hostname) + Errs(user) + Errs(os) + Errs(osRelease) + Errs(pid);
    if errs == [] then Success(HostInfo(hostname.value, user.value, os.value, osRelease.value, pid.value))
    else Failure(errs)
  }

  function DecodeSession(ms: seq<(string, Json)>): (r: Decoded<SessionInfo>)
    ensures r.Success? <==> IsStr(Get(ms, "session_id")) && IsOptStr(Get(ms, "action_id"))
    ensures r.Success? ==> SessionCarries(ms, r.value)
    ensures !IsStr(Get(ms, "session_id")) ==>
              r.Failure? && FieldError(StrError(Get(ms, "session_id")), ["session_id"]) in r.error
    ensures !IsOptStr(Get(ms, "action_id")) ==> r.Failure? && FieldError(StringType, ["action_id"]) in r.error
  {
    var sessionId := RequiredStr("session_id", Get(ms, "session_id"));
    var actionId := OptionalStr("action_id", Get(ms, "action_id"));
    var errs := Errs(sessionId) + Errs(actionId);
    if errs == [] then Success(SessionInfo(sessionId.value, actionId.value)) else Failure(errs)
  }

  function DecodeScope(ms: seq<(string, Json)>): (r: Decoded<ScopeInfo>)
    ensures r.Success? <==>
              && IsOptStr(Get(ms, "show")) && IsOptStr(Get(ms, "sequence")) && IsOptStr(Get(ms, "shot"))
              && IsOptStr(Get(ms, "asset")) && IsOptStr(Get(ms, "department")) && IsOptStr(Get(ms, "task"))
    ensures r.Success? ==> ScopeCarries(ms, r.value)
    ensures !IsOptStr(Get(ms, "show")) ==> r.Failure? && FieldError(StringType, ["show"]) in r.error
    ensures !IsOptStr(Get(ms, "sequence")) ==> r.Failure? && FieldError(StringType, ["sequence"]) in r.error
    ensures !IsOptStr(Get(ms, "shot")) ==> r.Failure? && FieldError(StringType, ["shot"]) in r.error
    ensures !IsOptStr(Get(ms, "asset")) ==> r.Failure? && FieldError(StringType, ["asset"]) in r.error
    ensures !IsOptStr(Get(ms, "department")) ==> r.Failure? && FieldError(StringType, ["department"]) in r.error
    ensures !IsOptStr(Get(ms, "task")) ==> r.Failure? && FieldError(StringType, ["task"]) in r.error
  {
    var show := OptionalStr("show", Get(ms, "show"));
    var sequence := OptionalStr("sequence", Get(ms, "sequence"));
    var shot := OptionalStr("shot", Get(ms, "shot"));
    var asset := OptionalStr("asset", Get(ms, "asset"));
    var department := OptionalStr("department", Get(ms, "department"));
    var task := OptionalStr("task", Get(ms, "task"));
    var errs := Errs(show) + Errs(sequence) + Errs(shot) + Errs(asset) + Errs(department) + Errs(task);
    if errs == [] then
      Success(ScopeInfo(show.value, sequence.value, shot.value, asset.value, department.value, task.value))
    else Failure(errs)
  }

  function DecodeErrorInfo(ms: seq<(string, Json)>): (r: Decoded<ErrorInfo>)
    ensures r.Success? <==> IsOptStr(Get(ms, "code")) && IsOptStr(Get(ms, "message"))
    ensures r.Success? ==> ErrorInfoCarries(ms, r.value)
    ensures !IsOptStr(Get(ms, "code")) ==> r.Failure? && FieldError(StringType, ["code"]) in r.error
    ensures !IsOptStr(Get(ms, "message")) ==> r.Failure? && FieldError(StringType, ["message"]) in r.error
  {
    var code := OptionalStr("code", Get(ms, "code"));
    var message := OptionalStr("message", Get(ms, "message"));
    var errs := Errs(code) + Errs(message);
    if errs == [] then Success(ErrorInfo(code.value, message.value)) else Failure(errs)
  }

  /**
   * A required nested-model field (`pipeline`, `host` or `session`): an absent key is
   * missing, a value that is not an object is a `model_type` failure, and an object
   * gives what the model's own decode gives, its failures re-rooted under the field.
   */
  function RequiredModel<T>(key: string, v: Option<Json>, className: string,
                            decode: seq<(string, Json)> -> Decoded<T>): (r: Decoded<T>)
    requires forall sub :: decode(sub).Failure? ==> decode(sub).error != []
    ensures v.None? ==> r == Failure([FieldError(Missing, [key])])
    ensures v.Some? && !v.value.JObject? ==> r == Failure([FieldError(ModelType(className), [key])])
    ensures v.Some? && v.value.JObject? ==>
              && (r.Success? <==> decode(v.value.members).Success?)
              && (r.Success? ==> r.value == decode(v.value.members).value)
              && (r.Failure? ==> r.error == Under(key, decode(v.value.members).error))
  {
    match v
    case None => Failure([FieldError(Missing, [key])])
    case Some(JObject(sub)) =>
      var d := decode(sub);
      if d.Success? then Success(d.value) else Failure(Under(key, d.error))
    case Some(_) => Failure([FieldError(ModelType(className), [key])])
  }

  /** `scope: ScopeInfo = ScopeInfo()`: absent gives the empty scope; null is not an object. */
  function ScopeOrDefault(v: Option<Json>): (r: Decoded<ScopeInfo>)
    ensures v.None? ==> r == Success(EmptyScope)
    ensures v.Some? && !v.value.JObject? ==> r == Failure([FieldError(ModelType("ScopeInfo"), ["scope"])])
    ensures v.Some? && v.value.JObject? ==>
              && (r.Success? <==> DecodeScope(v.value.members).Success?)
              && (r.Success? ==> ScopeCarries(v.value.members, r.value))
              && (r.Failure? ==> r.error == Under("scope", DecodeScope(v.value.members).error))
  {
    match v
    case None => Success(EmptyScope)
    case Some(JObject(sub)) =>
      var d := DecodeScope(sub);
      if d.Success? then Success(d.value) else Failure(Under("scope", d.error))
    case Some(_) => Failure([FieldError(ModelType("ScopeInfo"), ["scope"])])
  }

  /** `error: ErrorInfo | None = None`: absent or null gives None. */
  function OptionalErrorInfo(v: Option<Json>): (r: Decoded<Option<ErrorInfo>>)
    ensures v.None? || v == Some(JNull) ==> r == Success(None)
    ensures v.Some? && !v.value.JObject? && !v.value.JNull? ==>
              r == Failure([FieldError(ModelType("ErrorInfo"), ["error"])])
    ensures v.Some? && v.value.JObject? ==>
              && (r.Success? <==> DecodeErrorInfo(v.value.members).Success?)
              && (r.Success? ==> r.value.Some? && ErrorInfoCarries(v.value.members, r.value.value))
              && (r.Failure? ==> r.error == Under("error", DecodeErrorInfo(v.value.members).error))
  {
    match v
    case None => Success(None)
    case Some(JNull) => Success(None)
    case Some(JObject(sub)) =>
      var d := DecodeErrorInfo(sub);
      if d.Success? then Success(Some(d.value)) else Failure(Under("error", d.error))
    case Some(_) => Failure([FieldError(ModelType("ErrorInfo"), ["error"])])
  }

  // ---------------------------------------------------------------------
  // The envelope
  // ---------------------------------------------------------------------

  /** The envelope's top-level fields. */
  datatype Field =
    | SchemaVersionField | EventIdField | EventTypeField | OccurredAtField | StatusField
    | PipelineField | HostField | SessionField
    | PayloadField | MetricsField | ScopeField | ErrorField

  /** The JSON key of each field. */
  function Key(f: Field): string
  {
    match f
    case SchemaVersionField => "schema_version"
    case EventIdField => "event_id"
    case EventTypeField => "event_type"
    case OccurredAtField => "occurred_at_utc"
    case StatusField => "status"
    case PipelineField => "pipeline"
    case HostField => "host"
    case SessionField => "session"
    case PayloadField => "payload"
    case MetricsField => "metrics"
    case ScopeField => "scope"
    case ErrorField => "error"
  }

  /** Different fields have different keys. */
  lemma KeyInjective(f: Field, g: Field)
    ensures Key(f) == Key(g) ==> f == g
  {
    if Key(f) == Key(g) {
      assert |Key(f)| == |Key(g)| && Key(f)[0] == Key(g)[0] && Key(f)[1] == Key(g)[1];
    }
  }

  /** The fields in declaration order. */
  const FieldOrder: seq<Field> := [
    SchemaVersionField, EventIdField, EventTypeField, OccurredAtField, StatusField,
    PipelineField, HostField, SessionField, PayloadField, MetricsField, ScopeField, ErrorField]

  /** Where each field stands in the declaration order. */
  function Position(f: Field): (i: nat)
    ensures i < |FieldOrder| && FieldOrder[i] == f
  {
    match f
    case SchemaVersionField => 0
    case EventIdField => 1
    case EventTypeField => 2
    case OccurredAtField => 3
    case StatusField => 4
    case PipelineField => 5
    case HostField => 6
    case SessionField => 7
    case PayloadField => 8
    case MetricsField => 9
    case ScopeField => 10
    case ErrorField => 11
  }

  /** The fields without a default: the first eight. */
  predicate IsRequired(f: Field)
  {
    Position(f) < 8
  }

  /** The failures one top-level field contributes, in its own declaration order. */
  function FieldErrors(ms: seq<(string, Json)>, f: Field, parseTime: Json -> TimeParse): seq<FieldError>
  {
    match f
    case SchemaVersionField => Errs(RequiredStr("schema_version", Get(ms, "schema_version")))
    case EventIdField => Errs(RequiredStr("event_id", Get(ms, "event_id")))
    case EventTypeField => Errs(RequiredStr("event_type", Get(ms, "event_type")))
    case OccurredAtField => Errs(RequiredAwareDateTime("occurred_at_utc", Get(ms, "occurred_at_utc"), parseTime))
    case StatusField => Errs(RequiredStatus("status", Get(ms, "status")))
    case PipelineField => Errs(RequiredModel("pipeline", Get(ms, "pipeline"), "PipelineInfo", DecodePipeline))
    case HostField => Errs(RequiredModel("host", Get(ms, "host"), "HostInfo", DecodeHost))
    case SessionField => Errs(RequiredModel("session", Get(ms, "session"), "SessionInfo", DecodeSession))
    case PayloadField => Errs(DictOrEmpty("payload", Get(ms, "payload")))
    case MetricsField => Errs(DictOrEmpty("metrics", Get(ms, "metrics")))
    case ScopeField => Errs(ScopeOrDefault(Get(ms, "scope")))
    case ErrorField => Errs(OptionalErrorInfo(Get(ms, "error")))
  }

  /** The failures of each field, one list per field in declaration order. */
  function PerFieldErrors(ms: seq<(string, Json)>, parseTime: Json -> TimeParse): (r: seq<seq<FieldError>>)
    ensures |r| == |FieldOrder|
    ensures forall i :: 0 <= i < |r| ==> r[i] == FieldErrors(ms, FieldOrder[i], parseTime)
  {
    seq(|FieldOrder|, i requires 0 <= i < |FieldOrder| => FieldErrors(ms, FieldOrder[i], parseTime))
  }

  /** The lists one after the other. */
  function Concat(parts: seq<seq<FieldError>>): seq<FieldError>
  {
    if parts == [] then [] else parts[0] + Concat(parts[1..])
  }

  /** Every failure of every field, in declaration order. */
  function AllErrors(ms: seq<(string, Json)>, parseTime: Json -> TimeParse): seq<FieldError>
  {
    Concat(PerFieldErrors(ms, parseTime))
  }

  lemma {:induction false} ConcatEmpty(parts: seq<seq<FieldError>>)
    ensures Concat(parts) == [] <==> forall i :: 0 <= i < |parts| ==> parts[i] == []
  {
    if parts != [] {
      ConcatEmpty(parts[1..]);
      assert forall i :: 1 <= i < |parts| ==> parts[i] == parts[1..][i - 1];
    }
  }

  lemma {:induction false} ConcatContains(parts: seq<seq<FieldError>>, j: nat)
    requires j < |parts|
    ensures forall e :: e in parts[j] ==> e in Concat(parts)
  {
    if j > 0 {
      ConcatContains(parts[1..], j - 1);
    }
  }

  lemma {:induction false} ConcatStartsWithFirstNonEmpty(parts: seq<seq<FieldError>>, j: nat)
    requires j < |parts| && parts[j] != []
    requires forall i :: 0 <= i < j ==> parts[i] == []
    ensures Concat(parts) != [] && Concat(parts)[0] == parts[j][0]
  {
    if j > 0 {
      assert forall i :: 0 <= i < j - 1 ==> parts[1..][i] == parts[i + 1];
      ConcatStartsWithFirstNonEmpty(parts[1..], j - 1);
    }
  }

  /** Whether field `f`'s own decoder succeeds. */
  predicate DecoderSucceeds(ms: seq<(string, Json)>, f: Field, parseTime: Json -> TimeParse)
  {
    match f
    case SchemaVersionField => RequiredStr("schema_version", Get(ms, "schema_version")).Success?
    case EventIdField => RequiredStr("event_id", Get(ms, "event_id")).Success?
    case EventTypeField => RequiredStr("event_type", Get(ms, "event_type")).Success?
    case OccurredAtField => RequiredAwareDateTime("occurred_at_utc", Get(ms, "occurred_at_utc"), parseTime).Success?
    case StatusField => RequiredStatus("status", Get(ms, "status")).Success?
    case PipelineField => RequiredModel("pipeline", Get(ms, "pipeline"), "PipelineInfo", DecodePipeline).Success?
    case HostField => RequiredModel("host", Get(ms, "host"), "HostInfo", DecodeHost).Success?
    case SessionField => RequiredModel("session", Get(ms, "session"), "SessionInfo", DecodeSession).Success?
    case PayloadField => DictOrEmpty("payload", Get(ms, "payload")).Success?
    case MetricsField => DictOrEmpty("metrics", Get(ms, "metrics")).Success?
    case ScopeField => ScopeOrDefault(Get(ms, "scope")).Success?
    case ErrorField => OptionalErrorInfo(Get(ms, "error")).Success?
  }

  /** Every field decodes on its own. */
  predicate EveryFieldDecodes(ms: seq<(string, Json)>, parseTime: Json -> TimeParse)
  {
    forall f :: DecoderSucceeds(ms, f, parseTime)
  }

  /** The envelope assembled from fields that all decode. */
  function Build(ms: seq<(string, Json)>, parseTime: Json -> TimeParse): (r: Envelope)
    requires EveryFieldDecodes(ms, parseTime)
    ensures Get(ms, "schema_version") == Some(JString(r.schemaVersion))
    ensures Get(ms, "event_id") == Some(JString(r.eventId))
    ensures Get(ms, "event_type") == Some(JString(r.eventType))
    ensures r.occurredAtUtc.utcOffset.Some?
    ensures Get(ms, "scope").None? ==> r.scope == EmptyScope
    ensures Get(ms, "error").None? ==> r.error.None?
  {
    assert DecoderSucceeds(ms, SchemaVersionField, parseTime);
    assert DecoderSucceeds(ms, EventIdField, parseTime);
    assert DecoderSucceeds(ms, EventTypeField, parseTime);
    assert DecoderSucceeds(ms, OccurredAtField, parseTime);
    assert DecoderSucceeds(ms, StatusField, parseTime);
    assert DecoderSucceeds(ms, PipelineField, parseTime);
    assert DecoderSucceeds(ms, HostField, parseTime);
    assert DecoderSucceeds(ms, SessionField, parseTime);
    assert DecoderSucceeds(ms, PayloadField, parseTime);
    assert DecoderSucceeds(ms, MetricsField, parseTime);
    assert DecoderSucceeds(ms, ScopeField, parseTime);
    assert DecoderSucceeds(ms, ErrorField, parseTime);
    Envelope(
      RequiredStr("schema_version", Get(ms, "schema_version")).value,
      RequiredStr("event_id", Get(ms, "event_id")).value,
      RequiredStr("event_type", Get(ms, "event_type")).value,
      RequiredAwareDateTime("occurred_at_utc", Get(ms, "occurred_at_utc"), parseTime).value,
      RequiredStatus("status", Get(ms, "status")).value,
      RequiredModel("pipeline", Get(ms, "pipeline"), "PipelineInfo", DecodePipeline).value,
      RequiredModel("host", Get(ms, "host"), "HostInfo", DecodeHost).value,
      RequiredModel("session", Get(ms, "session"), "SessionInfo", DecodeSession).value,
      DictOrEmpty("payload", Get(ms, "payload")).value,
      DictOrEmpty("metrics", Get(ms, "metrics")).value,
      ScopeOrDefault(Get(ms, "scope")).value,
      OptionalErrorInfo(Get(ms, "error")).value)
  }

  /** Whether field `f`'s own decode succeeds. */
  predicate FieldDecodes(ms: seq<(string, Json)>, f: Field, parseTime: Json -> TimeParse)
  {
    FieldErrors(ms, f, parseTime) == []
  }

  /** A field contributes no failure exactly when its decoder succeeds. */
  lemma FieldDecodesIffDecoderSucceeds(ms: seq<(string, Json)>, f: Field, parseTime: Json -> TimeParse)
    ensures FieldDecodes(ms, f, parseTime) <==> DecoderSucceeds(ms, f, parseTime)
  {
  }

  /** No failure is collected exactly when every field decodes. */
  lemma NoErrorsIffEveryFieldDecodes(ms: seq<(string, Json)>, parseTime: Json -> TimeParse)
    ensures AllErrors(ms, parseTime) == [] <==> EveryFieldDecodes(ms, parseTime)
  {
    ConcatEmpty(PerFieldErrors(ms, parseTime));
    forall f
      ensures FieldDecodes(ms, f, parseTime) <==> DecoderSucceeds(ms, f, parseTime)
    {
      FieldDecodesIffDecoderSucceeds(ms, f, parseTime);
    }
    if AllErrors(ms, parseTime) == [] {
      forall f
        ensures DecoderSucceeds(ms, f, parseTime)
      {
        assert PerFieldErrors(ms, parseTime)[Position(f)] == [];
      }
    }
    if EveryFieldDecodes(ms, parseTime) {
      forall i | 0 <= i < |FieldOrder|
        ensures PerFieldErrors(ms, parseTime)[i] == []
      {
        assert DecoderSucceeds(ms, FieldOrder[i], parseTime);
      }
    }
  }

  /**
   * `Envelope.model_validate(raw)`: the envelope when every field decodes, otherwise
   * every failure, field by field in declaration order.
   */
  function ModelValidate(ms: seq<(string, Json)>, parseTime: Json -> TimeParse): (r: Decoded<Envelope>)
    ensures r.Failure? ==> r.error != []
  {
    if EveryFieldDecodes(ms, parseTime) then Success(Build(ms, parseTime))
    else
      NoErrorsIffEveryFieldDecodes(ms, parseTime);
      Failure(AllErrors(ms, parseTime))
  }

  // ---------------------------------------------------------------------
  // Properties of the decode
  // ---------------------------------------------------------------------

  /** A field that fails makes the whole decode fail, and each of its failures is reported. */
  lemma FailingFieldFailsTheDecode(ms: seq<(string, Json)>, parseTime: Json -> TimeParse, f: Field)
    requires FieldErrors(ms, f, parseTime) != []
    ensures ModelValidate(ms, parseTime).Failure?
    ensures forall e :: e in FieldErrors(ms, f, parseTime) ==> e in ModelValidate(ms, parseTime).error
  {
    ConcatContains(PerFieldErrors(ms, parseTime), Position(f));
    NoErrorsIffEveryFieldDecodes(ms, parseTime);
    assert FieldErrors(ms, f, parseTime)[0] in AllErrors(ms, parseTime);
  }

  /**
   * The first reported failure belongs to the first field, in declaration order, that
   * fails: a failing field hides the failures of every field declared after it.
   */
  lemma FirstFailingFieldIsReportedFirst(ms: seq<(string, Json)>, parseTime: Json -> TimeParse, j: nat)
    requires j < |FieldOrder|
    requires FieldErrors(ms, FieldOrder[j], parseTime) != []
    requires forall g :: 0 <= g < j ==> FieldErrors(ms, FieldOrder[g], parseTime) == []
    ensures ModelValidate(ms, parseTime).Failure?
    ensures ModelValidate(ms, parseTime).error[0] == FieldErrors(ms, FieldOrder[j], parseTime)[0]
  {
    ConcatStartsWithFirstNonEmpty(PerFieldErrors(ms, parseTime), j);
    NoErrorsIffEveryFieldDecodes(ms, parseTime);
  }

  /** An absent required top-level field is reported as a `missing` failure at its name. */
  lemma MissingRequiredFieldFails(ms: seq<(string, Json)>, parseTime: Json -> TimeParse, f: Field)
    requires IsRequired(f)
    requires Get(ms, Key(f)) == None
    ensures ModelValidate(ms, parseTime).Failure?
    ensures FieldError(Missing, [Key(f)]) in ModelValidate(ms, parseTime).error
  {
    assert FieldErrors(ms, f, parseTime) == [FieldError(Missing, [Key(f)])];
    FailingFieldFailsTheDecode(ms, parseTime, f);
  }

  /** An absent optional top-level field never fails. */
  lemma AbsentOptionalFieldNeverFails(ms: seq<(string, Json)>, parseTime: Json -> TimeParse, f: Field)
    requires !IsRequired(f)
    requires Get(ms, Key(f)) == None
    ensures FieldErrors(ms, f, parseTime) == []
  {
  }

  /** The required sub-field of a nested model that is absent, with its path. */
  predicate MissingNestedField(ms: seq<(string, Json)>, parent: Field, key: string)
  {
    && (parent, key) in {(PipelineField, "name"), (HostField, "hostname"), (HostField, "user"),
                         (SessionField, "session_id")}
    && Get(ms, Key(parent)).Some? && Get(ms, Key(parent)).value.JObject?
    && Get(Get(ms, Key(parent)).value.members, key) == None
  }

  /** An absent required sub-field is reported as a `missing` failure at its two-part path. */
  lemma MissingNestedFieldFails(ms: seq<(string, Json)>, parseTime: Json -> TimeParse, parent: Field, key: string)
    requires MissingNestedField(ms, parent, key)
    ensures ModelValidate(ms, parseTime).Failure?
    ensures FieldError(Missing, [Key(parent), key]) in ModelValidate(ms, parseTime).error
  {
    var sub := Get(ms, Key(parent)).value.members;
    var missing := FieldError(Missing, [key]);
    var errs: seq<FieldError>, k: nat;
    if parent == PipelineField {
      errs, k := DecodePipeline(sub).error, 0;
    } else if parent == HostField {
      errs := DecodeHost(sub).error;
      k := if key == "hostname" then 0 else |Errs(RequiredStr("hostname", Get(sub, "hostname")))|;
    } else {
      errs, k := DecodeSession(sub).error, 0;
    }
    assert k < |errs| && errs[k] == missing;
    assert FieldErrors(ms, parent, parseTime) == Under(Key(parent), errs);
    assert Under(Key(parent), errs)[k] == FieldError(Missing, [Key(parent), key]);
    FailingFieldFailsTheDecode(ms, parseTime, parent);
  }

  /** A successful decode saw every required field, and carries the identity fields verbatim. */
  lemma ValidatedEnvelopeCarriesRawFields(ms: seq<(string, Json)>, parseTime: Json -> TimeParse)
    requires ModelValidate(ms, parseTime).Success?
    ensures forall f :: IsRequired(f) ==> Get(ms, Key(f)).Some?
    ensures Get(ms, "schema_version") == Some(JString(ModelValidate(ms, parseTime).value.schemaVersion))
    ensures Get(ms, "event_id") == Some(JString(ModelValidate(ms, parseTime).value.eventId))
    ensures Get(ms, "event_type") == Some(JString(ModelValidate(ms, parseTime).value.eventType))
    ensures Get(ms, "status") == Some(JString(StatusText(ModelValidate(ms, parseTime).value.status)))
    ensures Get(ms, "occurred_at_utc").Some?
    ensures parseTime(Get(ms, "occurred_at_utc").value) == TimeOk(ModelValidate(ms, parseTime).value.occurredAtUtc)
    ensures ModelValidate(ms, parseTime).value.occurredAtUtc.utcOffset.Some?
  {
    forall f | IsRequired(f)
      ensures Get(ms, Key(f)).Some?
    {
      assert DecoderSucceeds(ms, f, parseTime);
    }
    assert DecoderSucceeds(ms, StatusField, parseTime);
    assert DecoderSucceeds(ms, OccurredAtField, parseTime);
    assert DecoderSucceeds(ms, SchemaVersionField, parseTime);
    assert DecoderSucceeds(ms, EventIdField, parseTime);
    assert DecoderSucceeds(ms, EventTypeField, parseTime);
    var e := ModelValidate(ms, parseTime).value;
    assert e.status == RequiredStatus("status", Get(ms, "status")).value;
    match Get(ms, "status")
    case Some(JString(s)) =>
  }

  /** Absent optional fields take their defaults: empty maps, an all-None scope and no error. */
  lemma AbsentOptionalFieldsTakeDefaults(ms: seq<(string, Json)>, parseTime: Json -> TimeParse)
    requires ModelValidate(ms, parseTime).Success?
    ensures var e := ModelValidate(ms, parseTime).value;
            && (Get(ms, "payload") == None ==> e.payload == [])
            && (Get(ms, "metrics") == None ==> e.metrics == [])
            && (Get(ms, "scope") == None ==> e.scope == EmptyScope)
            && (Get(ms, "error") == None ==> e.error == None)
  {
  }

  /** Absent optional sub-fields of the nested models decode to None. */
  lemma AbsentOptionalSubFieldsAreNone(sub: seq<(string, Json)>)
    ensures DecodePipeline(sub).Success? && Get(sub, "dcc") == None ==> DecodePipeline(sub).value.dcc == None
    ensures DecodeHost(sub).Success? && Get(sub, "os") == None ==> DecodeHost(sub).value.os == None
    ensures DecodeHost(sub).Success? && Get(sub, "os_release") == None ==> DecodeHost(sub).value.osRelease == None
    ensures DecodeHost(sub).Success? && Get(sub, "pid") == None ==> DecodeHost(sub).value.pid == None
    ensures DecodeSession(sub).Success? && Get(sub, "action_id") == None ==> DecodeSession(sub).value.actionId == None
    ensures DecodeErrorInfo(sub).Success? ==>
              (Get(sub, "code") == None ==> DecodeErrorInfo(sub).value.code == None) &&
              (Get(sub, "message") == None ==> DecodeErrorInfo(sub).value.message == None)
    ensures DecodeScope(sub).Success? ==>
              && (Get(sub, "show") == None ==> DecodeScope(sub).value.show == None)
              && (Get(sub, "sequence") == None ==> DecodeScope(sub).value.sequence == None)
              && (Get(sub, "shot") == None ==> DecodeScope(sub).value.shot == None)
              && (Get(sub, "asset") == None ==> DecodeScope(sub).value.asset == None)
              && (Get(sub, "department") == None ==> DecodeScope(sub).value.department == None)
              && (Get(sub, "task") == None ==> DecodeScope(sub).value.task == None)
  {
  }

  /**
   * The JSON shape each top-level field accepts before any finer check: a string for
   * the string fields and `status`, an object for the models and the two maps, an
   * object or null for `error`. What the timestamp accepts is the datetime parser's
   * business.
   */
  predicate HasFieldShape(f: Field, j: Json)
  {
    match f
    case SchemaVersionField => j.JString?
    case EventIdField => j.JString?
    case EventTypeField => j.JString?
    case OccurredAtField => true
    case StatusField => j.JString?
    case ErrorField => j.JObject? || j.JNull?
    case _ => j.JObject?
  }

  /** The failure a present value of the wrong shape gives. */
  function ShapeError(f: Field): ErrorType
  {
    match f
    case SchemaVersionField => StringType
    case EventIdField => StringType
    case EventTypeField => StringType
    case OccurredAtField => Missing
    case StatusField => LiteralError
    case PipelineField => ModelType("PipelineInfo")
    case HostField => ModelType("HostInfo")
    case SessionField => ModelType("SessionInfo")
    case PayloadField => DictType
    case MetricsField => DictType
    case ScopeField => ModelType("ScopeInfo")
    case ErrorField => ModelType("ErrorInfo")
  }

  /**
   * A present top-level value of the wrong JSON type fails that field, and so the whole
   * decode, with a type failure (never `missing`) at the field's name.
   */
  lemma WrongShapeFails(ms: seq<(string, Json)>, parseTime: Json -> TimeParse, f: Field)
    requires Get(ms, Key(f)).Some? && !HasFieldShape(f, Get(ms, Key(f)).value)
    ensures ShapeError(f) != Missing
    ensures FieldErrors(ms, f, parseTime) == [FieldError(ShapeError(f), [Key(f)])]
    ensures ModelValidate(ms, parseTime).Failure?
    ensures FieldError(ShapeError(f), [Key(f)]) in ModelValidate(ms, parseTime).error
  {
    assert FieldErrors(ms, f, parseTime) == [FieldError(ShapeError(f), [Key(f)])];
    FailingFieldFailsTheDecode(ms, parseTime, f);
  }

  /** The required sub-fields: they accept a string only. */
  predicate IsRequiredSubField(parent: Field, key: string)
  {
    (parent, key) in {(PipelineField, "name"), (HostField, "hostname"), (HostField, "user"),
                      (SessionField, "session_id")}
  }

  /** The declared sub-fields of each nested model. */
  predicate IsSubKey(parent: Field, key: string)
  {
    match parent
    case PipelineField => key == "name" || key == "dcc"
    case HostField => key == "hostname" || key == "user" || key == "os" || key == "os_release" || key == "pid"
    case SessionField => key == "session_id" || key == "action_id"
    case ScopeField =>
      key == "show" || key == "sequence" || key == "shot" || key == "asset" || key == "department" || key == "task"
    case ErrorField => key == "code" || key == "message"
    case _ => false
  }

  /** Whether a sub-field's value has the shape the sub-field accepts. */
  predicate SubFieldFits(parent: Field, key: string, v: Option<Json>)
  {
    if IsRequiredSubField(parent, key) then IsStr(v)
    else if parent == HostField && key == "pid" then IsOptInt(v)
    else IsOptStr(v)
  }

  /** The failure a sub-field whose value does not fit gives. */
  function SubFieldError(parent: Field, key: string, v: Option<Json>): ErrorType
  {
    if IsRequiredSubField(parent, key) then StrError(v)
    else if parent == HostField && key == "pid" then IntError(v)
    else StringType
  }

  /** The nested object under a top-level field, when there is one. */
  predicate HasSubObject(ms: seq<(string, Json)>, parent: Field)
  {
    Get(ms, Key(parent)).Some? && Get(ms, Key(parent)).value.JObject?
  }

  /** The failures the nested model under `parent` reports on its own. */
  function SubModelErrors(parent: Field, sub: seq<(string, Json)>): seq<FieldError>
  {
    match parent
    case PipelineField => Errs(DecodePipeline(sub))
    case HostField => Errs(DecodeHost(sub))
    case SessionField => Errs(DecodeSession(sub))
    case ScopeField => Errs(DecodeScope(sub))
    case ErrorField => Errs(DecodeErrorInfo(sub))
    case _ => []
  }

  /** A nested object's failures are the parent field's failures, re-rooted under it. */
  lemma SubModelErrorsUnderParent(ms: seq<(string, Json)>, parseTime: Json -> TimeParse, parent: Field)
    requires HasSubObject(ms, parent) && parent in {PipelineField, HostField, SessionField, ScopeField, ErrorField}
    ensures FieldErrors(ms, parent, parseTime)
              == Under(Key(parent), SubModelErrors(parent, Get(ms, Key(parent)).value.members))
  {
    assert Under(Key(parent), []) == [];
  }

  /** A nested model reports each of its sub-fields that does not fit, at the sub-field's name. */
  lemma BadSubFieldIsReported(parent: Field, key: string, sub: seq<(string, Json)>)
    requires IsSubKey(parent, key) && !SubFieldFits(parent, key, Get(sub, key))
    ensures FieldError(SubFieldError(parent, key, Get(sub, key)), [key]) in SubModelErrors(parent, sub)
  {
    match parent
    case PipelineField =>
      if key == "name" {
        assert !IsStr(Get(sub, "name"));
      } else {
        assert !IsOptStr(Get(sub, "dcc"));
      }
    case HostField => BadHostFieldIsReported(key, sub);
    case SessionField =>
      if key == "session_id" {
        assert !IsStr(Get(sub, "session_id"));
      } else {
        assert !IsOptStr(Get(sub, "action_id"));
      }
    case ScopeField => BadScopeFieldIsReported(key, sub);
    case ErrorField =>
      if key == "code" {
        assert !IsOptStr(Get(sub, "code"));
      } else {
        assert !IsOptStr(Get(sub, "message"));
      }
  }

  lemma BadHostFieldIsReported(key: string, sub: seq<(string, Json)>)
    requires IsSubKey(HostField, key) && !SubFieldFits(HostField, key, Get(sub, key))
    ensures FieldError(SubFieldError(HostField, key, Get(sub, key)), [key]) in Errs(DecodeHost(sub))
  {
    var d := DecodeHost(sub);
    var e := FieldError(SubFieldError(HostField, key, Get(sub, key)), [key]);
    if key == "hostname" {
      assert !IsStr(Get(sub, "hostname"));
      assert e == FieldError(StrError(Get(sub, "hostname")), ["hostname"]);
    } else if key == "user" {
      assert !IsStr(Get(sub, "user"));
      assert e == FieldError(StrError(Get(sub, "user")), ["user"]);
    } else if key == "os" {
      assert !IsOptStr(Get(sub, "os"));
      assert e == FieldError(StringType, ["os"]);
    } else if key == "os_release" {
      assert !IsOptStr(Get(sub, "os_release"));
      assert e == FieldError(StringType, ["os_release"]);
    } else {
      assert !IsOptInt(Get(sub, "pid"));
      assert e == FieldError(IntError(Get(sub, "pid")), ["pid"]);
    }
    assert d.Failure? && e in d.error;
  }

  lemma BadScopeFieldIsReported(key: string, sub: seq<(string, Json)>)
    requires IsSubKey(ScopeField, key) && !SubFieldFits(ScopeField, key, Get(sub, key))
    ensures FieldError(StringType, [key]) in Errs(DecodeScope(sub))
  {
    var d := DecodeScope(sub);
    assert !IsOptStr(Get(sub, key));
    if key == "show" {
      assert !IsOptStr(Get(sub, "show"));
    } else if key == "sequence" {
      assert !IsOptStr(Get(sub, "sequence"));
    } else if key == "shot" {
      assert !IsOptStr(Get(sub, "shot"));
    } else if key == "asset" {
      assert !IsOptStr(Get(sub, "asset"));
    } else if key == "department" {
      assert !IsOptStr(Get(sub, "department"));
    } else {
      assert !IsOptStr(Get(sub, "task"));
    }
    assert d.Failure? && FieldError(StringType, [key]) in d.error;
  }

  /** Every declared sub-field of the object other than `key` fits. */
  ghost predicate OthersFit(parent: Field, key: string, sub: seq<(string, Json)>)
  {
    forall k :: IsSubKey(parent, k) && k != key ==> SubFieldFits(parent, k, Get(sub, k))
  }

  /** When only one sub-field does not fit, the nested model reports that failure and nothing else. */
  lemma OnlyBadSubFieldIsReported(parent: Field, key: string, sub: seq<(string, Json)>)
    requires IsSubKey(parent, key) && !SubFieldFits(parent, key, Get(sub, key))
    requires OthersFit(parent, key, sub)
    ensures SubModelErrors(parent, sub) == [FieldError(SubFieldError(parent, key, Get(sub, key)), [key])]
  {
    match parent
    case PipelineField => OnlyBadPairFieldIsReported(parent, "name", "dcc", key, sub);
    case HostField => OnlyBadHostFieldIsReported(key, sub);
    case SessionField => OnlyBadPairFieldIsReported(parent, "session_id", "action_id", key, sub);
    case ScopeField => OnlyBadScopeFieldIsReported(key, sub);
    case ErrorField => OnlyBadPairFieldIsReported(parent, "code", "message", key, sub);
  }

  /** The same for the three models with two sub-fields. */
  lemma OnlyBadPairFieldIsReported(parent: Field, first: string, second: string, key: string,
                                   sub: seq<(string, Json)>)
    requires (parent, first, second) in {(PipelineField, "name", "dcc"), (SessionField, "session_id", "action_id"),
                                         (ErrorField, "code", "message")}
    requires IsSubKey(parent, key) && !SubFieldFits(parent, key, Get(sub, key))
    requires OthersFit(parent, key, sub)
    ensures SubModelErrors(parent, sub) == [FieldError(SubFieldError(parent, key, Get(sub, key)), [key])]
  {
    assert key == first || key == second;
    if key == first {
      assert SubFieldFits(parent, second, Get(sub, second));
    } else {
      assert SubFieldFits(parent, first, Get(sub, first));
    }
  }

  lemma OnlyBadHostFieldIsReported(key: string, sub: seq<(string, Json)>)
    requires IsSubKey(HostField, key) && !SubFieldFits(HostField, key, Get(sub, key))
    requires OthersFit(HostField, key, sub)
    ensures Errs(DecodeHost(sub)) == [FieldError(SubFieldError(HostField, key, Get(sub, key)), [key])]
  {
    assert SubFieldFits(HostField, "hostname", Get(sub, "hostname")) || key == "hostname";
    assert SubFieldFits(HostField, "user", Get(sub, "user")) || key == "user";
    assert SubFieldFits(HostField, "os", Get(sub, "os")) || key == "os";
    assert SubFieldFits(HostField, "os_release", Get(sub, "os_release")) || key == "os_release";
    assert SubFieldFits(HostField, "pid", Get(sub, "pid")) || key == "pid";
  }

  lemma OnlyBadScopeFieldIsReported(key: string, sub: seq<(string, Json)>)
    requires IsSubKey(ScopeField, key) && !SubFieldFits(ScopeField, key, Get(sub, key))
    requires OthersFit(ScopeField, key, sub)
    ensures Errs(DecodeScope(sub)) == [FieldError(StringType, [key])]
  {
    assert SubFieldFits(ScopeField, "show", Get(sub, "show")) || key == "show";
    assert SubFieldFits(ScopeField, "sequence", Get(sub, "sequence")) || key == "sequence";
    assert SubFieldFits(ScopeField, "shot", Get(sub, "shot")) || key == "shot";
    assert SubFieldFits(ScopeField, "asset", Get(sub, "asset")) || key == "asset";
    assert SubFieldFits(ScopeField, "department", Get(sub, "department")) || key == "department";
    assert SubFieldFits(ScopeField, "task", Get(sub, "task")) || key == "task";
  }

  /**
   * A declared sub-field whose value is absent where required, or present with the
   * wrong JSON type, is reported at its two-part path, and the decode fails.
   */
  lemma BadSubFieldFails(ms: seq<(string, Json)>, parseTime: Json -> TimeParse, parent: Field, key: string)
    requires IsSubKey(parent, key) && HasSubObject(ms, parent)
    requires !SubFieldFits(parent, key, Get(Get(ms, Key(parent)).value.members, key))
    ensures ModelValidate(ms, parseTime).Failure?
    ensures FieldError(SubFieldError(parent, key, Get(Get(ms, Key(parent)).value.members, key)), [Key(parent), key])
              in ModelValidate(ms, parseTime).error
  {
    var sub := Get(ms, Key(parent)).value.members;
    var e := FieldError(SubFieldError(parent, key, Get(sub, key)), [key]);
    BadSubFieldIsReported(parent, key, sub);
    SubModelErrorsUnderParent(ms, parseTime, parent);
    UnderContains(Key(parent), SubModelErrors(parent, sub), e);
    assert [Key(parent)] + [key] == [Key(parent), key];
    FailingFieldFailsTheDecode(ms, parseTime, parent);
  }

  /** A successful decode carries the sub-fields of `pipeline`, `host` and `session` as they stand. */
  lemma ValidatedEnvelopeCarriesNestedFields(ms: seq<(string, Json)>, parseTime: Json -> TimeParse)
    requires ModelValidate(ms, parseTime).Success?
    ensures HasSubObject(ms, PipelineField)
            && PipelineCarries(Get(ms, "pipeline").value.members, ModelValidate(ms, parseTime).value.pipeline)
    ensures HasSubObject(ms, HostField)
            && HostCarries(Get(ms, "host").value.members, ModelValidate(ms, parseTime).value.host)
    ensures HasSubObject(ms, SessionField)
            && SessionCarries(Get(ms, "session").value.members, ModelValidate(ms, parseTime).value.session)
  {
    assert DecoderSucceeds(ms, PipelineField, parseTime);
    assert DecoderSucceeds(ms, HostField, parseTime);
    assert DecoderSucceeds(ms, SessionField, parseTime);
  }

  /**
   * A successful decode carries a present `scope` object's sub-fields, and gives an
   * error block exactly when `error` is an object, with that object's sub-fields.
   */
  lemma ValidatedEnvelopeCarriesOptionalModels(ms: seq<(string, Json)>, parseTime: Json -> TimeParse)
    requires ModelValidate(ms, parseTime).Success?
    ensures Get(ms, "scope").Some? ==>
              HasSubObject(ms, ScopeField)
              && ScopeCarries(Get(ms, "scope").value.members, ModelValidate(ms, parseTime).value.scope)
    ensures ModelValidate(ms, parseTime).value.error.None? <==> Get(ms, "error") == None || Get(ms, "error") == Some(JNull)
    ensures ModelValidate(ms, parseTime).value.error.Some? ==>
              HasSubObject(ms, ErrorField)
              && ErrorInfoCarries(Get(ms, "error").value.members, ModelValidate(ms, parseTime).value.error.value)
  {
    assert DecoderSucceeds(ms, ScopeField, parseTime);
    assert DecoderSucceeds(ms, ErrorField, parseTime);
  }

  /** A successful decode keeps a present `payload` or `metrics` object's members as they are. */
  lemma ValidatedEnvelopeCarriesMaps(ms: seq<(string, Json)>, parseTime: Json -> TimeParse)
    requires ModelValidate(ms, parseTime).Success?
    ensures Get(ms, "payload") == None || Get(ms, "payload") == Some(JObject(ModelValidate(ms, parseTime).value.payload))
    ensures Get(ms, "metrics") == None || Get(ms, "metrics") == Some(JObject(ModelValidate(ms, parseTime).value.metrics))
  {
    assert DecoderSucceeds(ms, PayloadField, parseTime);
    assert DecoderSucceeds(ms, MetricsField, parseTime);
  }

  /** A status other than the four literals is rejected as an invalid value, not as missing. */
  lemma UnknownStatusFails(ms: seq<(string, Json)>, parseTime: Json -> TimeParse, s: string)
    requires Get(ms, "status") == Some(JString(s))
    requires s !in {"success", "error", "warning", "info"}
    ensures ModelValidate(ms, parseTime).Failure?
    ensures FieldError(LiteralError, ["status"]) in ModelValidate(ms, parseTime).error
  {
    assert FieldErrors(ms, StatusField, parseTime) == [FieldError(LiteralError, ["status"])];
    FailingFieldFailsTheDecode(ms, parseTime, StatusField);
  }

  /** A timestamp without a UTC offset is rejected as an invalid value. */
  lemma NaiveTimestampFails(ms: seq<(string, Json)>, parseTime: Json -> TimeParse, v: Json, wall: int)
    requires Get(ms, "occurred_at_utc") == Some(v)
    requires parseTime(v) == TimeOk(DateTime(wall, None))
    ensures ModelValidate(ms, parseTime).Failure?
    ensures FieldError(TimezoneAware, ["occurred_at_utc"]) in ModelValidate(ms, parseTime).error
  {
    assert FieldErrors(ms, OccurredAtField, parseTime) == [FieldError(TimezoneAware, ["occurred_at_utc"])];
    FailingFieldFailsTheDecode(ms, parseTime, OccurredAtField);
  }

  /** A timestamp the datetime parser refuses is rejected as an invalid value. */
  lemma UnparsableTimestampFails(ms: seq<(string, Json)>, parseTime: Json -> TimeParse, v: Json, msg: string)
    requires Get(ms, "occurred_at_utc") == Some(v)
    requires parseTime(v) == TimeError(msg)
    ensures ModelValidate(ms, parseTime).Failure?
    ensures FieldError(DatetimeInvalid(msg), ["occurred_at_utc"]) in ModelValidate(ms, parseTime).error
  {
    assert FieldErrors(ms, OccurredAtField, parseTime) == [FieldError(DatetimeInvalid(msg), ["occurred_at_utc"])];
    FailingFieldFailsTheDecode(ms, parseTime, OccurredAtField);
  }

  /** Each field's decode looks at nothing but the field's own key. */
  lemma FieldDecodeReadsOnlyItsKey(ms: seq<(string, Json)>, ms': seq<(string, Json)>, parseTime: Json -> TimeParse,
                                   f: Field)
    requires Get(ms', Key(f)) == Get(ms, Key(f))
    ensures FieldErrors(ms', f, parseTime) == FieldErrors(ms, f, parseTime)
    ensures DecoderSucceeds(ms', f, parseTime) == DecoderSucceeds(ms, f, parseTime)
  {
  }

  /** Two objects agree on every declared key. */
  predicate SameDeclaredLookups(ms: seq<(string, Json)>, ms': seq<(string, Json)>)
  {
    && Get(ms', "schema_version") == Get(ms, "schema_version")
    && Get(ms', "event_id") == Get(ms, "event_id")
    && Get(ms', "event_type") == Get(ms, "event_type")
    && Get(ms', "occurred_at_utc") == Get(ms, "occurred_at_utc")
    && Get(ms', "status") == Get(ms, "status")
    && Get(ms', "pipeline") == Get(ms, "pipeline")
    && Get(ms', "host") == Get(ms, "host")
    && Get(ms', "session") == Get(ms, "session")
    && Get(ms', "payload") == Get(ms, "payload")
    && Get(ms', "metrics") == Get(ms, "metrics")
    && Get(ms', "scope") == Get(ms, "scope")
    && Get(ms', "error") == Get(ms, "error")
  }

  lemma BuildReadsOnlyDeclaredKeys(ms: seq<(string, Json)>, ms': seq<(string, Json)>, parseTime: Json -> TimeParse)
    requires SameDeclaredLookups(ms, ms')
    requires EveryFieldDecodes(ms, parseTime) && EveryFieldDecodes(ms', parseTime)
    ensures Build(ms', parseTime) == Build(ms, parseTime)
  {
  }

  /** The decode looks at nothing but the twelve declared keys. */
  lemma DecodeReadsOnlyDeclaredKeys(ms: seq<(string, Json)>, ms': seq<(string, Json)>, parseTime: Json -> TimeParse)
    requires forall f :: Get(ms', Key(f)) == Get(ms, Key(f))
    ensures ModelValidate(ms', parseTime) == ModelValidate(ms, parseTime)
  {
    forall f
      ensures FieldErrors(ms', f, parseTime) == FieldErrors(ms, f, parseTime)
      ensures DecoderSucceeds(ms', f, parseTime) == DecoderSucceeds(ms, f, parseTime)
    {
      FieldDecodeReadsOnlyItsKey(ms, ms', parseTime, f);
    }
    assert PerFieldErrors(ms', parseTime) == PerFieldErrors(ms, parseTime);
    if EveryFieldDecodes(ms, parseTime) {
      assert Get(ms', Key(SchemaVersionField)) == Get(ms, Key(SchemaVersionField));
      assert Get(ms', Key(EventIdField)) == Get(ms, Key(EventIdField));
      assert Get(ms', Key(EventTypeField)) == Get(ms, Key(EventTypeField));
      assert Get(ms', Key(OccurredAtField)) == Get(ms, Key(OccurredAtField));
      assert Get(ms', Key(StatusField)) == Get(ms, Key(StatusField));
      assert Get(ms', Key(PipelineField)) == Get(ms, Key(PipelineField));
      assert Get(ms', Key(HostField)) == Get(ms, Key(HostField));
      assert Get(ms', Key(SessionField)) == Get(ms, Key(SessionField));
      assert Get(ms', Key(PayloadField)) == Get(ms, Key(PayloadField));
      assert Get(ms', Key(MetricsField)) == Get(ms, Key(MetricsField));
      assert Get(ms', Key(ScopeField)) == Get(ms, Key(ScopeField));
      assert Get(ms', Key(ErrorField)) == Get(ms, Key(ErrorField));
      BuildReadsOnlyDeclaredKeys(ms, ms', parseTime);
    }
  }

  /** A top-level key the envelope does not declare is dropped: it changes nothing. */
  lemma UnknownTopLevelKeyIgnored(ms: seq<(string, Json)>, parseTime: Json -> TimeParse, key: string, v: Json)
    requires forall f :: key != Key(f)
    ensures ModelValidate(ms + [(key, v)], parseTime) == ModelValidate(ms, parseTime)
  {
    forall f
      ensures Get(ms + [(key, v)], Key(f)) == Get(ms, Key(f))
    {
      GetAppendOther(ms, key, v, Key(f));
    }
    DecodeReadsOnlyDeclaredKeys(ms, ms + [(key, v)], parseTime);
  }

  /** A nested key the sub-model does not declare is dropped as well. */
  lemma UnknownNestedKeyIgnored(sub: seq<(string, Json)>, key: string, v: Json)
    ensures key !in {"name", "dcc"} ==> DecodePipeline(sub + [(key, v)]) == DecodePipeline(sub)
    ensures key !in {"hostname", "user", "os", "os_release", "pid"} ==>
              DecodeHost(sub + [(key, v)]) == DecodeHost(sub)
    ensures key !in {"session_id", "action_id"} ==> DecodeSession(sub + [(key, v)]) == DecodeSession(sub)
    ensures key !in {"show", "sequence", "shot", "asset", "department", "task"} ==>
              DecodeScope(sub + [(key, v)]) == DecodeScope(sub)
    ensures key !in {"code", "message"} ==> DecodeErrorInfo(sub + [(key, v)]) == DecodeErrorInfo(sub)
  {
    var sub' := sub + [(key, v)];
    if key !in {"name", "dcc"} {
      GetAppendOther(sub, key, v, "name");
      GetAppendOther(sub, key, v, "dcc");
    }
    if key !in {"hostname", "user", "os", "os_release", "pid"} {
      GetAppendOther(sub, key, v, "hostname");
      GetAppendOther(sub, key, v, "user");
      GetAppendOther(sub, key, v, "os");
      GetAppendOther(sub, key, v, "os_release");
      GetAppendOther(sub, key, v, "pid");
    }
    if key !in {"session_id", "action_id"} {
      GetAppendOther(sub, key, v, "session_id");
      GetAppendOther(sub, key, v, "action_id");
    }
    if key !in {"show", "sequence", "shot", "asset", "department", "task"} {
      GetAppendOther(sub, key, v, "show");
      GetAppendOther(sub, key, v, "sequence");
      GetAppendOther(sub, key, v, "shot");
      GetAppendOther(sub, key, v, "asset");
      GetAppendOther(sub, key, v, "department");
      GetAppendOther(sub, key, v, "task");
    }
    if key !in {"code", "message"} {
      GetAppendOther(sub, key, v, "code");
      GetAppendOther(sub, key, v, "message");
    }
  }

  /**
   * `event_type` is any string: assigning another string to it never changes whether
   * the decode succeeds, and the new value is carried unchanged.
   */
  lemma EventTypeIsNotConstrained(ms: seq<(string, Json)>, parseTime: Json -> TimeParse, t: string)
    requires Get(ms, "event_type").Some? && Get(ms, "event_type").value.JString?
    ensures var ms' := SetItem(ms, "event_type", JString(t));
            && (ModelValidate(ms', parseTime).Success? <==> ModelValidate(ms, parseTime).Success?)
            && (ModelValidate(ms', parseTime).Success? ==>
                  ModelValidate(ms', parseTime).value == ModelValidate(ms, parseTime).value.(eventType := t))
  {
    var ms' := SetItem(ms, "event_type", JString(t));
    GetSetItem(ms, "event_type", JString(t), "event_type");
    forall f
      ensures f != EventTypeField ==> Get(ms', Key(f)) == Get(ms, Key(f))
      ensures DecoderSucceeds(ms', f, parseTime) == DecoderSucceeds(ms, f, parseTime)
    {
      GetSetItem(ms, "event_type", JString(t), Key(f));
      KeyInjective(f, EventTypeField);
      if f != EventTypeField {
        FieldDecodeReadsOnlyItsKey(ms, ms', parseTime, f);
      }
    }
    if EveryFieldDecodes(ms, parseTime) {
      BuildWithOtherEventType(ms, ms', parseTime, t);
    }
  }

  /** Two objects that differ only in their `event_type` string build envelopes that differ only there. */
  lemma BuildWithOtherEventType(ms: seq<(string, Json)>, ms': seq<(string, Json)>, parseTime: Json -> TimeParse,
                                t: string)
    requires forall f :: f != EventTypeField ==> Get(ms', Key(f)) == Get(ms, Key(f))
    requires Get(ms', "event_type") == Some(JString(t))
    requires EveryFieldDecodes(ms, parseTime) && EveryFieldDecodes(ms', parseTime)
    ensures Build(ms', parseTime) == Build(ms, parseTime).(eventType := t)
  {
    assert Get(ms', Key(SchemaVersionField)) == Get(ms, Key(SchemaVersionField));
    assert Get(ms', Key(EventIdField)) == Get(ms, Key(EventIdField));
    assert Get(ms', Key(OccurredAtField)) == Get(ms, Key(OccurredAtField));
    assert Get(ms', Key(StatusField)) == Get(ms, Key(StatusField));
    assert Get(ms', Key(PipelineField)) == Get(ms, Key(PipelineField));
    assert Get(ms', Key(HostField)) == Get(ms, Key(HostField));
    assert Get(ms', Key(SessionField)) == Get(ms, Key(SessionField));
    assert Get(ms', Key(PayloadField)) == Get(ms, Key(PayloadField));
    assert Get(ms', Key(MetricsField)) == Get(ms, Key(MetricsField));
    assert Get(ms', Key(ScopeField)) == Get(ms, Key(ScopeField));
    assert Get(ms', Key(ErrorField)) == Get(ms, Key(ErrorField));
  }

  /** Each status's own text decodes back to that status. */
  lemma StatusTextDecodes(st: Status)
    ensures RequiredStatus("status", Some(JString(StatusText(st)))) == Success(st)
  {
  }

  /**
   * `error` is not checked against `status`: assigning any status to a valid event keeps
   * it valid, whatever its error block says.
   */
  lemma ErrorIsNotCrossCheckedWithStatus(ms: seq<(string, Json)>, parseTime: Json -> TimeParse, st: Status)
    requires ModelValidate(ms, parseTime).Success?
    ensures var ms' := SetItem(ms, "status", JString(StatusText(st)));
            && ModelValidate(ms', parseTime).Success?
            && ModelValidate(ms', parseTime).value == ModelValidate(ms, parseTime).value.(status := st)
  {
    var ms' := SetItem(ms, "status", JString(StatusText(st)));
    assert EveryFieldDecodes(ms, parseTime);
    StatusTextDecodes(st);
    GetSetItem(ms, "status", JString(StatusText(st)), "status");
    forall f
      ensures f != StatusField ==> Get(ms', Key(f)) == Get(ms, Key(f))
      ensures DecoderSucceeds(ms', f, parseTime)
    {
      GetSetItem(ms, "status", JString(StatusText(st)), Key(f));
      KeyInjective(f, StatusField);
      if f != StatusField {
        FieldDecodeReadsOnlyItsKey(ms, ms', parseTime, f);
        assert DecoderSucceeds(ms, f, parseTime);
      }
    }
    BuildWithOtherStatus(ms, ms', parseTime, st);
  }

  /** Two objects that differ only in their `status` text build envelopes that differ only there. */
  lemma BuildWithOtherStatus(ms: seq<(string, Json)>, ms': seq<(string, Json)>, parseTime: Json -> TimeParse,
                             st: Status)
    requires forall f :: f != StatusField ==> Get(ms', Key(f)) == Get(ms, Key(f))
    requires Get(ms', "status") == Some(JString(StatusText(st)))
    requires EveryFieldDecodes(ms, parseTime) && EveryFieldDecodes(ms', parseTime)
    ensures Build(ms', parseTime) == Build(ms, parseTime).(status := st)
  {
    StatusTextDecodes(st);
    assert Build(ms', parseTime).status == st;
    assert Get(ms', Key(SchemaVersionField)) == Get(ms, Key(SchemaVersionField));
    assert Get(ms', Key(EventIdField)) == Get(ms, Key(EventIdField));
    assert Get(ms', Key(EventTypeField)) == Get(ms, Key(EventTypeField));
    assert Get(ms', Key(OccurredAtField)) == Get(ms, Key(OccurredAtField));
    assert Get(ms', Key(PipelineField)) == Get(ms, Key(PipelineField));
    assert Get(ms', Key(HostField)) == Get(ms, Key(HostField));
    assert Get(ms', Key(SessionField)) == Get(ms, Key(SessionField));
    assert Get(ms', Key(PayloadField)) == Get(ms, Key(PayloadField));
    assert Get(ms', Key(MetricsField)) == Get(ms, Key(MetricsField));
    assert Get(ms', Key(ScopeField)) == Get(ms, Key(ScopeField));
    assert Get(ms', Key(ErrorField)) == Get(ms, Key(ErrorField));
  }
}
