/**
 * The shape of a record before validation: the value `json.load` returns for
 * one file, or the document the store hands back. Datetime parsing and
 * rendering are not modelled; callers pass them in as functions, and a
 * timestamp is an opaque value compared only for equality.
 */
module Json {
  import opened Wrappers

  datatype Timestamp = Timestamp(micros: int)

  /** A decoded JSON value. Floats and arrays fall into `JOther`, which no
      field of either record model accepts. */
  datatype JsonValue =
    | JNull
    | JBool(b: bool)
    | JInt(i: int)
    | JString(s: string)
    | JObject(fields: map<string, JsonValue>)
    | JOther

  type Fields = map<string, JsonValue>

  /** ISO-8601 parsing: `None` for a string that is not a datetime. */
  type TimeParser = string -> Option<Timestamp>

  /** `datetime.isoformat`. */
  type TimeFormatter = Timestamp -> string

  /** Why a record was rejected: the first offending field, in declaration order. */
  datatype ValidationError = NotAnObject | Missing(field: string) | WrongType(field: string)

  /** A required integer field. */
  function IntField(m: Fields, name: string): Result<int, ValidationError> {
    if name !in m then Failure(Missing(name))
    else if m[name].JInt? then Success(m[name].i)
    else Failure(WrongType(name))
  }

  /** A boolean field; `default` is `None` for a required one. */
  function BoolField(m: Fields, name: string, default: Option<bool>): Result<bool, ValidationError> {
    if name !in m then (if default.Some? then Success(default.value) else Failure(Missing(name)))
    else if m[name].JBool? then Success(m[name].b)
    else Failure(WrongType(name))
  }

  /** A required string field. */
  function StringField(m: Fields, name: string): Result<string, ValidationError> {
    if name !in m then Failure(Missing(name))
    else if m[name].JString? then Success(m[name].s)
    else Failure(WrongType(name))
  }

  /** A required datetime field. */
  function TimeField(m: Fields, name: string, parse: TimeParser): Result<Timestamp, ValidationError> {
    if name !in m then Failure(Missing(name))
    else if m[name].JString? && parse(m[name].s).Some? then Success(parse(m[name].s).value)
    else Failure(WrongType(name))
  }

  /** An `Optional[datetime] = None` field: absent or null gives `None`. */
  function OptionalTimeField(m: Fields, name: string, parse: TimeParser): Result<Option<Timestamp>, ValidationError> {
    if name !in m || m[name].JNull? then Success(None)
    else if m[name].JString? && parse(m[name].s).Some? then Success(Some(parse(m[name].s).value))
    else Failure(WrongType(name))
  }

  /** How a datetime or `None` is written by `json.dump` with the isoformat serializer. */
  function TimeJson(t: Timestamp, format: TimeFormatter): JsonValue {
    JString(format(t))
  }

  function OptionalTimeJson(t: Option<Timestamp>, format: TimeFormatter): JsonValue {
    match t
    case None => JNull
    case Some(v) => JString(format(v))
  }
}
