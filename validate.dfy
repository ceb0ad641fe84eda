/**
 * `validate_envelope`: the structural decode of the envelope followed by the clock-skew
 * check, with the decode's first failure mapped onto the three-way error taxonomy.
 */
module Validate {
  import opened Wrappers
  import opened Json
  import opened Envelope
  import Text

  /** The schema v1.0 event types, by family. */
  const KnownEventTypeList: seq<string> := [
    "publish.asset.usd", "publish.anim.usd", "publish.camera.usd", "publish.customanim.usd",
    "publish.previs_asset.usd",
    "dcc.launch", "file.open", "file.create", "shot.setup", "playblast.create",
    "build.houdini.component", "texture.export.substance", "texture.convert.tex",
    "tractor.job.spool", "tractor.farm.snapshot",
    "render.stats.summary",
    "storage.scan.summary", "storage.scan.bucket"
  ]

  /** `KNOWN_EVENT_TYPES`. The validator does not consult this set. */
  const KnownEventTypes: set<string> := set t | t in KnownEventTypeList

  const MicrosPerSecond: int := 1_000_000

  /** `CLOCK_SKEW_TOLERANCE`: one hour. */
  const ClockSkewTolerance: int := 3600 * MicrosPerSecond

  /**
   * `EnvelopeError` and its three subclasses: every error the validator raises is one
   * of these constructors. A missing or invalid field carries the field path joined
   * with " → "; a clock-skew error carries how far ahead the event is.
   */
  datatype EnvelopeError =
    | MissingFieldError(field: string)
    | InvalidFieldError(field: string, msg: string)
    | ClockSkewError(ahead: int)

  /** `" → ".join(str(loc) for loc in path)`. */
  function LocText(loc: seq<string>): string
  {
    if |loc| == 0 then ""
    else if |loc| == 1 then loc[0]
    else LocText(loc[..|loc| - 1]) + " → " + loc[|loc| - 1]
  }

  /** `repr` of a field path; paths are built from field names, which hold no quote. */
  function Repr(s: string): string
  {
    "'" + s + "'"
  }

  /** `str(timedelta(microseconds=us))` for a non-negative duration. */
  function TimedeltaText(us: nat): string
  {
    var days := us / (86400 * MicrosPerSecond);
    var secs := (us / MicrosPerSecond) % 86400;
    var frac := us % MicrosPerSecond;
    var dayText :=
      if days == 0 then ""
      else Text.NatToString(days) + (if days == 1 then " day, " else " days, ");
    var clock := Text.NatToString(secs / 3600) + ":" + Text.ZeroPad(secs / 60 % 60, 2) + ":" + Text.ZeroPad(secs % 60, 2);
    dayText + clock + (if frac == 0 then "" else "." + Text.ZeroPad(frac, 6))
  }

  /** `str(exc)`: the message each error carries. */
  function Message(e: EnvelopeError): (r: string)
    ensures e.MissingFieldError? ==> "Required field missing: " <= r
    ensures e.InvalidFieldError? ==> "Invalid value for " <= r && |r| >= |e.msg| && r[|r| - |e.msg|..] == e.msg
    ensures e.ClockSkewError? ==> "Event timestamp is " <= r
  {
    match e
    case MissingFieldError(field) =>
      var rest := Repr(field);
      assert ("Required field missing: " + rest)[..24] == "Required field missing: ";
      "Required field missing: " + rest
    case InvalidFieldError(field, msg) =>
      var head := Repr(field) + ": ";
      assert ("Invalid value for " + head + msg)[..18] == "Invalid value for ";
      assert ("Invalid value for " + head + msg)[18 + |head|..] == msg;
      "Invalid value for " + head + msg
    case ClockSkewError(ahead) =>
      var rest := (if ahead >= 0 then TimedeltaText(ahead) else "-")
        + " ahead of wall clock (tolerance: " + TimedeltaText(ClockSkewTolerance)
        + ").  Check NTP sync on the source host.";
      assert ("Event timestamp is " + rest)[..19] == "Event timestamp is ";
      "Event timestamp is " + rest
  }

  /** `_convert_pydantic_error`, applied to the first failure. */
  function ConvertFieldError(first: FieldError): (r: EnvelopeError)
    ensures r.MissingFieldError? <==> first.errorType == Missing
    ensures !r.ClockSkewError?
    ensures r.field == LocText(first.loc)
    ensures r.InvalidFieldError? ==> r.msg == ErrorMessage(first.errorType)
  {
    if first.errorType == Missing then MissingFieldError(LocText(first.loc))
    else InvalidFieldError(LocText(first.loc), ErrorMessage(first.errorType))
  }

  /** `_check_clock_skew`: `now` is the wall clock in microseconds since the epoch. */
  function CheckClockSkew(ts: DateTime, now: int): (r: Option<EnvelopeError>)
    ensures r.Some? <==> ts.micros > now + ClockSkewTolerance
    ensures r.Some? ==> r.value == ClockSkewError(ts.micros - now) && r.value.ahead > ClockSkewTolerance
  {
    if ts.micros > now + ClockSkewTolerance then Some(ClockSkewError(ts.micros - now)) else None
  }

  /** `validate_envelope(raw, now=now)`. */
  function ValidateEnvelope(raw: seq<(string, Json)>, now: int, parseTime: Json -> TimeParse)
    : (r: Result<Envelope, EnvelopeError>)
    ensures r.Success? ==>
              ModelValidate(raw, parseTime) == Success(r.value) && r.value.occurredAtUtc.micros <= now + ClockSkewTolerance
    ensures r.Failure? && r.error.ClockSkewError? ==>
              ModelValidate(raw, parseTime).Success? && r.error.ahead > ClockSkewTolerance
    ensures r.Failure? && !r.error.ClockSkewError? ==> ModelValidate(raw, parseTime).Failure?
  {
    match ModelValidate(raw, parseTime)
    case Failure(errs) => Failure(ConvertFieldError(errs[0]))
    case Success(env) =>
      match CheckClockSkew(env.occurredAtUtc, now)
      case Some(e) => Failure(e)
      case None => Success(env)
  }

  // ---------------------------------------------------------------------
  // Properties
  // ---------------------------------------------------------------------

  /** Length and first two characters: enough to tell the known event types apart. */
  function Signature(t: string): (int, char, char)
  {
    (|t|, if |t| > 0 then t[0] else ' ', if |t| > 1 then t[1] else ' ')
  }

  lemma {:induction false} DistinctListSetSize(ts: seq<string>)
    requires forall i, j :: 0 <= i < j < |ts| ==> ts[i] != ts[j]
    ensures |set t | t in ts| == |ts|
  {
    if ts != [] {
      var rest := ts[..|ts| - 1];
      DistinctListSetSize(rest);
      assert (set t | t in ts) == (set t | t in rest) + {ts[|ts| - 1]};
    }
  }

  /** The known event types number eighteen, with no repeats. */
  lemma KnownEventTypesCount()
    ensures |KnownEventTypes| == 18
  {
    var sigs := seq(|KnownEventTypeList|, i requires 0 <= i < |KnownEventTypeList| => Signature(KnownEventTypeList[i]));
    assert forall i, j :: 0 <= i < j < |sigs| ==> sigs[i] != sigs[j];
    DistinctListSetSize(KnownEventTypeList);
  }

  /** The skew boundary is strict: exactly one hour ahead passes, one microsecond more fails. */
  lemma ClockSkewBoundary(now: int, offset: int)
    ensures CheckClockSkew(DateTime(now + ClockSkewTolerance, Some(offset)), now) == None
    ensures CheckClockSkew(DateTime(now + ClockSkewTolerance + 1, Some(offset)), now)
              == Some(ClockSkewError(ClockSkewTolerance + 1))
  {
  }

  /** An event at or before the wall clock is never rejected for skew, however old. */
  lemma PastEventsNeverSkewed(ts: DateTime, now: int)
    requires ts.micros <= now
    ensures CheckClockSkew(ts, now) == None
  {
  }

  /**
   * Validation succeeds exactly when the structural decode succeeds and the timestamp
   * is within the tolerance; it then returns the decoded envelope unchanged.
   */
  lemma ValidateSucceedsIff(raw: seq<(string, Json)>, now: int, parseTime: Json -> TimeParse)
    ensures ValidateEnvelope(raw, now, parseTime).Success? <==>
              ModelValidate(raw, parseTime).Success?
              && ModelValidate(raw, parseTime).value.occurredAtUtc.micros <= now + ClockSkewTolerance
    ensures ValidateEnvelope(raw, now, parseTime).Success? ==>
              ValidateEnvelope(raw, now, parseTime).value == ModelValidate(raw, parseTime).value
  {
  }

  /**
   * The skew check runs only after the structural decode succeeds: a clock-skew error
   * means the event was otherwise valid and too far ahead, and a structural failure is
   * reported whatever the clock says.
   */
  lemma SkewCheckedOnlyAfterStructure(raw: seq<(string, Json)>, now: int, now': int, parseTime: Json -> TimeParse)
    ensures (ValidateEnvelope(raw, now, parseTime).Failure? && ValidateEnvelope(raw, now, parseTime).error.ClockSkewError?)
              <==> (ModelValidate(raw, parseTime).Success?
                    && ModelValidate(raw, parseTime).value.occurredAtUtc.micros > now + ClockSkewTolerance)
    ensures ModelValidate(raw, parseTime).Failure? ==>
              ValidateEnvelope(raw, now, parseTime) == ValidateEnvelope(raw, now', parseTime)
  {
  }

  /**
   * Only the first structural failure is reported: the first field, in declaration
   * order, that fails decides the error.
   */
  lemma FirstFailingFieldDecidesTheError(raw: seq<(string, Json)>, now: int, parseTime: Json -> TimeParse, j: nat)
    requires j < |FieldOrder|
    requires FieldErrors(raw, FieldOrder[j], parseTime) != []
    requires forall g :: 0 <= g < j ==> FieldErrors(raw, FieldOrder[g], parseTime) == []
    ensures ValidateEnvelope(raw, now, parseTime)
              == Failure(ConvertFieldError(FieldErrors(raw, FieldOrder[j], parseTime)[0]))
  {
    FirstFailingFieldIsReportedFirst(raw, parseTime, j);
  }

  /**
   * A required top-level field that is absent, behind fields that all decode, is
   * reported as a `MissingFieldError` naming it.
   */
  lemma MissingFieldReported(raw: seq<(string, Json)>, now: int, parseTime: Json -> TimeParse, f: Field)
    requires IsRequired(f) && Get(raw, Key(f)) == None
    requires forall g :: 0 <= g < Position(f) ==> FieldErrors(raw, FieldOrder[g], parseTime) == []
    ensures ValidateEnvelope(raw, now, parseTime) == Failure(MissingFieldError(Key(f)))
  {
    assert FieldErrors(raw, f, parseTime) == [FieldError(Missing, [Key(f)])];
    FirstFailingFieldDecidesTheError(raw, now, parseTime, Position(f));
  }

  /**
   * A required sub-field that is absent, behind fields that all decode, is reported as a
   * `MissingFieldError` naming its path, e.g. `'host → hostname'`.
   */
  lemma MissingNestedFieldReported(raw: seq<(string, Json)>, now: int, parseTime: Json -> TimeParse,
                                   parent: Field, key: string)
    requires MissingNestedField(raw, parent, key)
    requires key == "user" ==> Get(Get(raw, "host").value.members, "hostname").Some?
                               && Get(Get(raw, "host").value.members, "hostname").value.JString?
    requires forall g :: 0 <= g < Position(parent) ==> FieldErrors(raw, FieldOrder[g], parseTime) == []
    ensures ValidateEnvelope(raw, now, parseTime) == Failure(MissingFieldError(Key(parent) + " → " + key))
  {
    var sub := Get(raw, Key(parent)).value.members;
    var first := FieldError(Missing, [Key(parent), key]);
    if parent == PipelineField {
      assert FieldErrors(raw, parent, parseTime)[0] == first;
    } else if parent == HostField {
      assert FieldErrors(raw, parent, parseTime)[0] == first;
    } else {
      assert FieldErrors(raw, parent, parseTime)[0] == first;
    }
    FirstFailingFieldDecidesTheError(raw, now, parseTime, Position(parent));
    assert LocText([Key(parent), key]) == LocText([Key(parent)]) + " → " + key;
  }

  /**
   * A status outside the four literals, behind fields that all decode, is reported as an
   * `InvalidFieldError` on `status`.
   */
  lemma UnknownStatusReported(raw: seq<(string, Json)>, now: int, parseTime: Json -> TimeParse, s: string)
    requires Get(raw, "status") == Some(JString(s))
    requires s !in {"success", "error", "warning", "info"}
    requires forall g :: 0 <= g < Position(StatusField) ==> FieldErrors(raw, FieldOrder[g], parseTime) == []
    ensures ValidateEnvelope(raw, now, parseTime)
              == Failure(InvalidFieldError("status", "Input should be 'success', 'error', 'warning' or 'info'"))
  {
    assert FieldErrors(raw, StatusField, parseTime) == [FieldError(LiteralError, ["status"])];
    FirstFailingFieldDecidesTheError(raw, now, parseTime, Position(StatusField));
  }

  /**
   * A timestamp without a UTC offset, behind fields that all decode, is reported as an
   * `InvalidFieldError` on `occurred_at_utc`.
   */
  lemma NaiveTimestampReported(raw: seq<(string, Json)>, now: int, parseTime: Json -> TimeParse, v: Json, wall: int)
    requires Get(raw, "occurred_at_utc") == Some(v)
    requires parseTime(v) == TimeOk(DateTime(wall, None))
    requires forall g :: 0 <= g < Position(OccurredAtField) ==> FieldErrors(raw, FieldOrder[g], parseTime) == []
    ensures ValidateEnvelope(raw, now, parseTime)
              == Failure(InvalidFieldError("occurred_at_utc", "Input should have timezone info"))
  {
    assert FieldErrors(raw, OccurredAtField, parseTime) == [FieldError(TimezoneAware, ["occurred_at_utc"])];
    FirstFailingFieldDecidesTheError(raw, now, parseTime, Position(OccurredAtField));
  }

  /**
   * A present top-level value of the wrong JSON type, behind fields that all decode, is
   * reported as an `InvalidFieldError` on that field, with the type failure's message.
   */
  lemma WrongTypedFieldIsInvalid(raw: seq<(string, Json)>, now: int, parseTime: Json -> TimeParse, f: Field)
    requires Get(raw, Key(f)).Some? && !HasFieldShape(f, Get(raw, Key(f)).value)
    requires forall g :: 0 <= g < Position(f) ==> FieldErrors(raw, FieldOrder[g], parseTime) == []
    ensures ValidateEnvelope(raw, now, parseTime) == Failure(InvalidFieldError(Key(f), ErrorMessage(ShapeError(f))))
  {
    WrongShapeFails(raw, parseTime, f);
    FirstFailingFieldDecidesTheError(raw, now, parseTime, Position(f));
  }

  /**
   * A present sub-field of the wrong JSON type, in a nested object whose other declared
   * sub-fields fit and behind top-level fields that all decode, is reported as an
   * `InvalidFieldError` on its joined path, e.g. `'host → pid'`.
   */
  lemma WrongTypedSubFieldIsInvalid(raw: seq<(string, Json)>, now: int, parseTime: Json -> TimeParse,
                                    parent: Field, key: string)
    requires IsSubKey(parent, key) && HasSubObject(raw, parent)
    requires Get(Get(raw, Key(parent)).value.members, key).Some?
    requires !SubFieldFits(parent, key, Get(Get(raw, Key(parent)).value.members, key))
    requires OthersFit(parent, key, Get(raw, Key(parent)).value.members)
    requires forall g :: 0 <= g < Position(parent) ==> FieldErrors(raw, FieldOrder[g], parseTime) == []
    ensures ValidateEnvelope(raw, now, parseTime)
              == Failure(InvalidFieldError(Key(parent) + " → " + key,
                   ErrorMessage(SubFieldError(parent, key, Get(Get(raw, Key(parent)).value.members, key)))))
  {
    var sub := Get(raw, Key(parent)).value.members;
    var t := SubFieldError(parent, key, Get(sub, key));
    OnlyBadSubFieldIsReported(parent, key, sub);
    SubModelErrorsUnderParent(raw, parseTime, parent);
    assert FieldErrors(raw, parent, parseTime)[0] == FieldError(t, [Key(parent), key]);
    FirstFailingFieldDecidesTheError(raw, now, parseTime, Position(parent));
    assert t != Missing;
    assert LocText([Key(parent), key]) == LocText([Key(parent)]) + " → " + key;
  }

  /**
   * The event type is not checked against `KnownEventTypes`: with any string, known or
   * not, assigned to `event_type`, the event validates exactly when the original did,
   * and the string is kept unchanged.
   */
  lemma AnyEventTypeAccepted(raw: seq<(string, Json)>, now: int, parseTime: Json -> TimeParse, t: string)
    requires Get(raw, "event_type").Some? && Get(raw, "event_type").value.JString?
    ensures var raw' := SetItem(raw, "event_type", JString(t));
            && (ValidateEnvelope(raw', now, parseTime).Success? <==> ValidateEnvelope(raw, now, parseTime).Success?)
            && (ValidateEnvelope(raw', now, parseTime).Success? ==>
                  ValidateEnvelope(raw', now, parseTime).value.eventType == t)
            && (ValidateEnvelope(raw', now, parseTime).Success? ==>
                  ValidateEnvelope(raw', now, parseTime).value
                  == ValidateEnvelope(raw, now, parseTime).value.(eventType := t))
  {
    EventTypeIsNotConstrained(raw, parseTime, t);
  }

  /** Keys the envelope does not declare are dropped rather than rejected. */
  lemma ExtraFieldsAccepted(raw: seq<(string, Json)>, now: int, parseTime: Json -> TimeParse, key: string, v: Json)
    requires forall f :: key != Key(f)
    ensures ValidateEnvelope(raw + [(key, v)], now, parseTime) == ValidateEnvelope(raw, now, parseTime)
  {
    UnknownTopLevelKeyIgnored(raw, parseTime, key, v);
  }
}
