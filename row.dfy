/**
 * `SilverRow`: one validated envelope flattened into the 24 columns of `silver_events`,
 * and the column values in INSERT order.
 */
module Row {
  import opened Wrappers
  import opened Json
  import opened Envelope

  /** One row of `silver_events`; `ingested_at_utc` is filled by the store. */
  datatype SilverRow = SilverRow(
    eventId: string,
    schemaVersion: string,
    eventType: string,
    occurredAtUtc: DateTime,
    status: string,
    pipelineName: string,
    pipelineDcc: Option<string>,
    hostHostname: string,
    hostUser: string,
    hostOs: Option<string>,
    sessionId: string,
    actionId: Option<string>,
    scopeShow: Option<string>,
    scopeSequence: Option<string>,
    scopeShot: Option<string>,
    scopeAsset: Option<string>,
    scopeDepartment: Option<string>,
    scopeTask: Option<string>,
    errorCode: Option<string>,
    errorMessage: Option<string>,
    payload: string,
    metrics: string,
    sourceFile: string,
    sourceLine: int)

  /** A value bound to one `?` placeholder of the INSERT. */
  datatype Param = PStr(s: string) | PNull | PInt(i: int) | PTime(t: DateTime)

  function OptParam(o: Option<string>): Param
  {
    match o
    case None => PNull
    case Some(s) => PStr(s)
  }

  /** `_to_json`: compact JSON of a mapping, with `quote` the JSON string quoting. */
  function ToJson(m: seq<(string, Json)>, quote: string -> string): string
  {
    Compact(JObject(m), quote)
  }

  /**
   * `SilverRow.from_envelope`: `sourceFile` is `str(source_file)`. The host's `os_release`
   * and `pid` have no column.
   */
  function FromEnvelope(env: Envelope, sourceFile: string, sourceLine: int, quote: string -> string): (r: SilverRow)
    ensures r.eventId == env.eventId
    ensures r.sourceFile == sourceFile && r.sourceLine == sourceLine
    ensures |r.payload| >= 2 && r.payload[0] == '{' && r.payload[|r.payload| - 1] == '}'
    ensures |r.metrics| >= 2 && r.metrics[0] == '{' && r.metrics[|r.metrics| - 1] == '}'
  {
    SilverRow(
      env.eventId, env.schemaVersion, env.eventType, env.occurredAtUtc, StatusText(env.status),
      env.pipeline.name, env.pipeline.dcc,
      env.host.hostname, env.host.user, env.host.os,
      env.session.sessionId, env.session.actionId,
      env.scope.show, env.scope.sequence, env.scope.shot, env.scope.asset, env.scope.department, env.scope.task,
      if env.error.Some? then env.error.value.code else None,
      if env.error.Some? then env.error.value.message else None,
      ToJson(env.payload, quote), ToJson(env.metrics, quote),
      sourceFile, sourceLine)
  }

  /** The column list of the INSERT statement, in order. */
  const InsertColumns: seq<string> := [
    "event_id", "schema_version", "event_type", "occurred_at_utc", "status",
    "pipeline_name", "pipeline_dcc",
    "host_hostname", "host_user", "host_os",
    "session_id", "action_id",
    "scope_show", "scope_sequence", "scope_shot", "scope_asset", "scope_department", "scope_task",
    "error_code", "error_message",
    "payload", "metrics",
    "source_file", "source_line"]

  /** The value a row holds for the column of that name. */
  function ColumnValue(r: SilverRow, column: string): Param
  {
    match column
    case "event_id" => PStr(r.eventId)
    case "schema_version" => PStr(r.schemaVersion)
    case "event_type" => PStr(r.eventType)
    case "occurred_at_utc" => PTime(r.occurredAtUtc)
    case "status" => PStr(r.status)
    case "pipeline_name" => PStr(r.pipelineName)
    case "pipeline_dcc" => OptParam(r.pipelineDcc)
    case "host_hostname" => PStr(r.hostHostname)
    case "host_user" => PStr(r.hostUser)
    case "host_os" => OptParam(r.hostOs)
    case "session_id" => PStr(r.sessionId)
    case "action_id" => OptParam(r.actionId)
    case "scope_show" => OptParam(r.scopeShow)
    case "scope_sequence" => OptParam(r.scopeSequence)
    case "scope_shot" => OptParam(r.scopeShot)
    case "scope_asset" => OptParam(r.scopeAsset)
    case "scope_department" => OptParam(r.scopeDepartment)
    case "scope_task" => OptParam(r.scopeTask)
    case "error_code" => OptParam(r.errorCode)
    case "error_message" => OptParam(r.errorMessage)
    case "payload" => PStr(r.payload)
    case "metrics" => PStr(r.metrics)
    case "source_file" => PStr(r.sourceFile)
    case "source_line" => PInt(r.sourceLine)
    case _ => PNull
  }

  /** `as_params`: one value per INSERT column, in the statement's column order. */
  function AsParams(r: SilverRow): (ps: seq<Param>)
    ensures |ps| == |InsertColumns| == 24
    ensures forall i :: 0 <= i < |ps| ==> ps[i] == ColumnValue(r, InsertColumns[i])
  {
    [PStr(r.eventId), PStr(r.schemaVersion), PStr(r.eventType), PTime(r.occurredAtUtc), PStr(r.status),
     PStr(r.pipelineName), OptParam(r.pipelineDcc),
     PStr(r.hostHostname), PStr(r.hostUser), OptParam(r.hostOs),
     PStr(r.sessionId), OptParam(r.actionId),
     OptParam(r.scopeShow), OptParam(r.scopeSequence), OptParam(r.scopeShot), OptParam(r.scopeAsset),
     OptParam(r.scopeDepartment), OptParam(r.scopeTask),
     OptParam(r.errorCode), OptParam(r.errorMessage),
     PStr(r.payload), PStr(r.metrics),
     PStr(r.sourceFile), PInt(r.sourceLine)]
  }

  // ---------------------------------------------------------------------
  // What a row keeps of its envelope
  // ---------------------------------------------------------------------

  /**
   * The envelope as its row keeps it: without the host's `os_release` and `pid`, and
   * with an absent error and an error whose fields are both None made the same.
   */
  function Kept(env: Envelope): Envelope
  {
    var error := if env.error.Some? && (env.error.value.code.Some? || env.error.value.message.Some?)
                 then env.error else None;
    env.(host := env.host.(osRelease := None, pid := None), error := error,
         payload := [], metrics := [])
  }

  /** The status literal back as a status, if it is one. */
  function StatusOf(s: string): Option<Status>
  {
    if s == "success" then Some(SuccessStatus)
    else if s == "error" then Some(ErrorStatus)
    else if s == "warning" then Some(WarningStatus)
    else if s == "info" then Some(InfoStatus)
    else None
  }

  /** The envelope read back from a row (payload and metrics stay serialised in the row). */
  function EnvelopeOf(r: SilverRow): Option<Envelope>
  {
    match StatusOf(r.status)
    case None => None
    case Some(st) =>
      Some(Envelope(
        r.schemaVersion, r.eventId, r.eventType, r.occurredAtUtc, st,
        PipelineInfo(r.pipelineName, r.pipelineDcc),
        HostInfo(r.hostHostname, r.hostUser, r.hostOs, None, None),
        SessionInfo(r.sessionId, r.actionId),
        [], [],
        ScopeInfo(r.scopeShow, r.scopeSequence, r.scopeShot, r.scopeAsset, r.scopeDepartment, r.scopeTask),
        if r.errorCode.Some? || r.errorMessage.Some? then Some(ErrorInfo(r.errorCode, r.errorMessage)) else None))
  }

  /**
   * Flattening loses nothing but what `Kept` drops: reading the row back gives the kept
   * envelope, the maps are their compact JSON, and the lineage is passed through.
   */
  lemma FromEnvelopeRoundTrip(env: Envelope, sourceFile: string, sourceLine: int, quote: string -> string)
    ensures var r := FromEnvelope(env, sourceFile, sourceLine, quote);
            && EnvelopeOf(r) == Some(Kept(env))
            && r.payload == Compact(JObject(env.payload), quote)
            && r.metrics == Compact(JObject(env.metrics), quote)
            && r.sourceFile == sourceFile && r.sourceLine == sourceLine
  {
    var r := FromEnvelope(env, sourceFile, sourceLine, quote);
    match env.status
    case SuccessStatus =>
    case ErrorStatus =>
    case WarningStatus =>
    case InfoStatus =>
  }

  /** With no error, both error columns are NULL; otherwise they copy the error's fields. */
  lemma ErrorColumns(env: Envelope, sourceFile: string, sourceLine: int, quote: string -> string)
    ensures var r := FromEnvelope(env, sourceFile, sourceLine, quote);
            && (env.error.None? ==> r.errorCode.None? && r.errorMessage.None?)
            && (env.error.Some? ==> r.errorCode == env.error.value.code && r.errorMessage == env.error.value.message)
  {
  }

  /** An empty payload or metrics map is stored as `{}`. */
  lemma EmptyMapsStoredAsBraces(env: Envelope, sourceFile: string, sourceLine: int, quote: string -> string)
    requires env.payload == [] && env.metrics == []
    ensures FromEnvelope(env, sourceFile, sourceLine, quote).payload == "{}"
    ensures FromEnvelope(env, sourceFile, sourceLine, quote).metrics == "{}"
  {
    CompactEmptyObject(quote);
  }

  /** The bound parameters start with the event id, the conflict key of the INSERT. */
  lemma ConflictKeyIsFirstParam(r: SilverRow)
    ensures AsParams(r)[0] == PStr(r.eventId) && InsertColumns[0] == "event_id"
  {
  }
}
