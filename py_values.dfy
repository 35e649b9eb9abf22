/** The Python value semantics the logger relies on: the values a log record
    can hold, truthiness, `dict.get` and the `or` operator. */
module PyValues {

  datatype Option<+T> = None | Some(value: T)

  /** The one exception the modelled code can let escape to its caller. */
  datatype PyError = TypeError

  /** A computation that returns a value or raises. */
  datatype Result<+T> = Ok(value: T) | Err(error: PyError)

  /** A Python value as it can appear in a log record. `Time` stands for a
      `datetime`, given as a timestamp; floats and bytes are not modelled. */
  datatype Value =
    | Null
    | Bool(b: bool)
    | Int(i: int)
    | Str(s: string)
    | List(items: seq<Value>)
    | Dict(entries: map<string, Value>)
    | Time(t: int)

  /** The field names of a log record. Each name the logger reads or writes
      is a constructor, with its Python key beside it; any other keyword
      argument is `Other`, whose name is never one of those keys. */
  datatype Key =
    | ApiEndpoint         // 'api_endpoint'
    | HttpMethod          // 'http_method'
    | ClientId            // 'client_id'
    | ClientPhoneNumber   // 'client_phone_number'
    | MatterId            // 'matter_id'
    | PhoneNumber         // 'phone_number'
    | DebtorPhoneNumber   // 'debtor_phone_number'
    | SessionId           // 'session_id'
    | RequestStartTime    // 'request_start_time'
    | RequestEndTime      // 'request_end_time'
    | FileUploaded        // 'file_uploaded'
    | FileName            // 'file_name'
    | FileType            // 'file_type'
    | DocumentType        // 'document_type'
    | RequestPayload      // 'request_payload'
    | RequestPayloadSize  // 'request_payload_size'
    | ResponsePayload     // 'response_payload'
    | ResponseMessage     // 'response_message'
    | HttpStatusCode      // 'http_status_code'
    | ResponseTime        // 'response_time'
    | IsSuccess           // 'is_success'
    | ExceptionThrown     // 'exception_thrown'
    | ExceptionMessage    // 'exception_message'
    | ErrorSource         // 'error_source'
    | SslVerified         // 'ssl_verified'
    | RetryCount          // 'retry_count'
    | Environment         // 'environment'
    | CreatedAt           // 'created_at'
    | Other(name: string)

  /** A log record: a dict from field name to value. */
  type Record = map<Key, Value>

  /** Python truthiness (`if v:` / `not v`). */
  predicate Truthy(v: Value) {
    match v
    case Null => false
    case Bool(b) => b
    case Int(i) => i != 0
    case Str(s) => s != ""
    case List(items) => items != []
    case Dict(entries) => entries != map[]
    case Time(_) => true
  }

  /** `d.get(key, default)`, for records and for parsed JSON objects. */
  function Get<K(==)>(d: map<K, Value>, key: K, default: Value := Null): Value {
    if key in d then d[key] else default
  }

  /** The record has the key, with this value. */
  predicate Stores(r: Record, key: Key, v: Value) {
    key in r && r[key] == v
  }

  /** Python's `a or b`: the first operand when it is truthy, else the second. */
  function Or(a: Value, b: Value): Value {
    if Truthy(a) then a else b
  }

  /** `len(v)`, or None where `len` raises a TypeError. */
  function Len(v: Value): Option<nat> {
    match v
    case Str(s) => Some(|s|)
    case List(items) => Some(|items|)
    case Dict(entries) => Some(|entries|)
    case _ => None
  }

  function Min(a: int, b: int): int {
    if a <= b then a else b
  }
}
