/** JavaScript values as they travel between the console, its forms and the API.
    A record is a plain JSON object; a key that is absent reads as `undefined`. */
module Common {

  datatype Option<+T> = None | Some(value: T)

  /** The values a record field can hold.
      `Day(d)` is a date-picker value (a dayjs object) for calendar day `d`;
      `DateText(d)` is the `YYYY-MM-DD` text of day `d` that the API exchanges.
      Calendar arithmetic and the text formatting itself are abstract: days are integers. */
  datatype Value =
    | Null
    | Bool(b: bool)
    | Num(n: int)
    | Str(s: string)
    | DateText(day: int)
    | Day(day: int)

  type Record = map<string, Value>

  /** `record.key`: `None` stands for `undefined`. */
  function Get(r: Record, key: string): (v: Option<Value>)
    ensures v.Some? <==> key in r
    ensures v.Some? ==> v.value == r[key]
  {
    if key in r then Some(r[key]) else None
  }

  /** JavaScript truthiness of a field value (`undefined`, `null`, `false`, `0` and `''` are falsy). */
  predicate Truthy(v: Option<Value>)
  {
    match v
    case None => false
    case Some(Null) => false
    case Some(Bool(b)) => b
    case Some(Num(n)) => n != 0
    case Some(Str(s)) => s != ""
    case Some(DateText(_)) => true
    case Some(Day(_)) => true
  }

  /** Truthiness of an optional string (`!!s`). */
  predicate NonEmpty(s: Option<string>)
  {
    s.Some? && s.value != ""
  }

  /** A transient notification (antd `message`), kept as an event log. */
  datatype Notice =
    | Success(text: string)
    | Failure(text: string)
    | Warning(text: string)
    | Info(text: string)
}
