/** JavaScript values as the dashboard's handlers see them: the fields of a
    record, the payload of a failed request, and the truthiness and `??`
    rules the handlers branch on. */
module JsValues {

  datatype Option<+T> = None | Some(value: T) {
    function GetOr(default: T): T {
      match this
      case Some(v) => v
      case None => default
    }
  }

  /** An instant as moment holds it (milliseconds since the epoch). */
  datatype Date = Date(millis: int)

  /** A field value: `undefined`, `null`, a string, a number, or a moment
      object written by a date picker. */
  datatype Value = Undefined | Null | Text(s: string) | Number(n: int) | Instant(date: Date)

  /** A JavaScript object with string keys; a missing key reads as `undefined`. */
  type Record = map<string, Value>

  function Get(r: Record, key: string): (v: Value)
    ensures key !in r ==> v == Undefined
    ensures key in r ==> v == r[key]
  {
    if key in r then r[key] else Undefined
  }

  /** JavaScript truthiness: `undefined`, `null`, `''` and `0` are falsy. */
  predicate Truthy(v: Value) {
    match v
    case Undefined => false
    case Null => false
    case Text(s) => s != ""
    case Number(n) => n != 0
    case Instant(_) => true
  }

  /** `v ?? fallback`: only `undefined` and `null` are replaced. */
  function Nullish(v: Value, fallback: Value): (r: Value)
    ensures v != Undefined && v != Null ==> r == v
    ensures v == Undefined || v == Null ==> r == fallback
  {
    if v.Undefined? || v.Null? then fallback else v
  }

  /** What an error object carries in `response.data` or `message`:
      nothing (`undefined`/`null`), a string, or some other value, given by
      its truthiness and by the text `String(x)` would give for it. */
  datatype Payload = Missing | Str(s: string) | Other(truthy: bool, text: string)

  predicate PayloadTruthy(p: Payload) {
    match p
    case Missing => false
    case Str(s) => s != ""
    case Other(t, _) => t
  }

  /** A rejected request: `error?.response?.data` (Missing when there is no
      response) and `error?.message`. */
  datatype Failure = Failure(responseData: Payload, message: Payload)

  /** The fixed text shown when the error payload is not a string. */
  const UnknownError: string := "An unknown error occurred. Please try again later."

  /** How a handler turns a failure into the message it reports. */
  datatype MessagePolicy =
    | RawOr            // `error?.response?.data || error?.message`, passed on as it is
    | StringOrFallback // `error?.response?.data ?? error?.message`, non-strings replaced by UnknownError

  function Report(policy: MessagePolicy, f: Failure): (r: Payload)
    ensures policy.RawOr? && PayloadTruthy(f.responseData) ==> r == f.responseData
    ensures policy.RawOr? && !PayloadTruthy(f.responseData) ==> r == f.message
    ensures policy.StringOrFallback? ==> r.Str?
    ensures policy.StringOrFallback? && f.responseData.Str? ==> r == f.responseData
    ensures policy.StringOrFallback? && f.responseData.Other? ==> r == Str(UnknownError)
    ensures policy.StringOrFallback? && f.responseData.Missing? && f.message.Str? ==> r == f.message
    ensures policy.StringOrFallback? && f.responseData.Missing? && !f.message.Str? ==> r == Str(UnknownError)
  {
    match policy
    case RawOr => if PayloadTruthy(f.responseData) then f.responseData else f.message
    case StringOrFallback =>
      var message := if f.responseData.Missing? then f.message else f.responseData;
      if message.Str? then message else Str(UnknownError)
  }

  /** The text `Array.prototype.join` writes for one element. */
  function JoinText(p: Payload): string {
    match p
    case Missing => ""
    case Str(s) => s
    case Other(_, t) => t
  }

  /** `parts.join(sep)`. */
  function Join(parts: seq<Payload>, sep: string): (r: string)
    ensures |parts| == 1 ==> r == JoinText(parts[0])
    ensures parts == [] ==> r == ""
  {
    if parts == [] then ""
    else if |parts| == 1 then JoinText(parts[0])
    else JoinText(parts[0]) + sep + Join(parts[1..], sep)
  }
}
