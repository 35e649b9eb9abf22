/** The two record builders, `log_excalibur_request` and
    `log_excalibur_response`, up to the point where they hand the record to
    the logger. JSON serialisation and parsing are library calls and are
    parameters here. */
module Builders {
  import opened PyValues

  /** Request payloads longer than this many characters are truncated. */
  const PayloadLimit: nat := 100000
  /** Appended to a truncated request payload. */
  const TruncationMarker: string := "... [truncated]"

  /** `json.dumps` on a dict; None where it raises a TypeError. */
  type Serializer = map<string, Value> -> Option<string>
  /** `json.loads`; None where it raises. */
  type Parser = string -> Option<Value>

  // ---------------------------------------------------------------------------
  // Request records
  // ---------------------------------------------------------------------------

  /** The arguments of `log_excalibur_request`, with its defaults; `extra`
      holds the `**kwargs`. */
  datatype RequestArgs = RequestArgs(
    apiEndpoint: Value,
    clientId: Value,
    matterId: Value := Null,
    phoneNumber: Value := Null,
    requestPayload: Value := Null,
    fileName: Value := Null,
    fileType: Value := Null,
    documentType: Value := Null,
    sessionId: Value := Null,
    extra: Record := map[])

  /** Python binds a keyword argument named like a parameter to that
      parameter, so `**kwargs` never holds a parameter's name. */
  predicate RequestArgsWellFormed(a: RequestArgs) {
    && ApiEndpoint !in a.extra && ClientId !in a.extra && MatterId !in a.extra
    && PhoneNumber !in a.extra && RequestPayload !in a.extra && FileName !in a.extra
    && FileType !in a.extra && DocumentType !in a.extra && SessionId !in a.extra
  }

  /** The stored form of a textual request payload. */
  function StoredPayload(payload: string): (stored: string)
    ensures |payload| <= PayloadLimit ==> stored == payload
    ensures |payload| > PayloadLimit ==>
              && |stored| == PayloadLimit + |TruncationMarker|
              && stored[..PayloadLimit] == payload[..PayloadLimit]
              && stored[PayloadLimit..] == TruncationMarker
  {
    if |payload| > PayloadLimit then payload[..PayloadLimit] + TruncationMarker else payload
  }

  function TextPayloadFields(payload: string): Record {
    map[RequestPayloadSize := Int(|payload|), RequestPayload := Str(StoredPayload(payload))]
  }

  /** The payload fields of a truthy request payload: a dict is serialised
      first; `len` and slicing raise on anything but text and lists, and a
      long list cannot be concatenated with the marker. */
  function PayloadFields(payload: Value, dumps: Serializer): (r: Result<Record>)
    ensures r.Ok? ==> r.value.Keys == {RequestPayloadSize, RequestPayload}
    // text: its length before truncation, and the truncated text
    ensures payload.Str? ==>
              && r.Ok? && Stores(r.value, RequestPayloadSize, Int(|payload.s|))
              && Stores(r.value, RequestPayload, Str(StoredPayload(payload.s)))
    // a dict: raises exactly when serialising raises, else as its serialised text
    ensures payload.Dict? ==> (r.Err? <==> dumps(payload.entries).None?)
    ensures payload.Dict? && dumps(payload.entries).Some? ==>
              var text := dumps(payload.entries).value;
              && r.Ok? && Stores(r.value, RequestPayloadSize, Int(|text|))
              && Stores(r.value, RequestPayload, Str(StoredPayload(text)))
    // a list: kept as it is with its length, unless too long to truncate
    ensures payload.List? ==> (r.Err? <==> |payload.items| > PayloadLimit)
    ensures payload.List? && r.Ok? ==>
              Stores(r.value, RequestPayloadSize, Int(|payload.items|)) && Stores(r.value, RequestPayload, payload)
    // `len` of anything else raises
    ensures !payload.Str? && !payload.Dict? && !payload.List? ==> r.Err?
  {
    match payload
    case Str(s) => Ok(TextPayloadFields(s))
    case Dict(d) =>
      (match dumps(d)
       case Some(s) => Ok(TextPayloadFields(s))
       case None => Err(TypeError))
    case List(items) =>
      if |items| > PayloadLimit then Err(TypeError)
      else Ok(map[RequestPayloadSize := Int(|items|), RequestPayload := payload])
    case _ => Err(TypeError)
  }

  /** The fields `log_excalibur_request` always sets, before the payload and
      the keyword arguments. */
  function RequestBase(a: RequestArgs, now: int): (b: Record)
    ensures RequestPayload !in b && RequestPayloadSize !in b
    ensures && Stores(b, ApiEndpoint, a.apiEndpoint) && Stores(b, ClientId, a.clientId)
            && Stores(b, MatterId, a.matterId) && Stores(b, PhoneNumber, a.phoneNumber)
            && Stores(b, SessionId, a.sessionId) && Stores(b, FileName, a.fileName)
            && Stores(b, FileType, a.fileType) && Stores(b, DocumentType, a.documentType)
            && Stores(b, HttpMethod, Get(a.extra, HttpMethod, Str("POST")))
            && Stores(b, FileUploaded, Bool(a.fileName != Null))
            && Stores(b, RequestStartTime, Time(now))
  {
    map[
      ApiEndpoint := a.apiEndpoint,
      HttpMethod := Get(a.extra, HttpMethod, Str("POST")),
      ClientId := a.clientId,
      MatterId := a.matterId,
      PhoneNumber := a.phoneNumber,
      SessionId := a.sessionId,
      RequestStartTime := Time(now),
      FileUploaded := Bool(a.fileName != Null),
      FileName := a.fileName,
      FileType := a.fileType,
      DocumentType := a.documentType]
  }

  /** The record `log_excalibur_request` builds, or the TypeError it raises. */
  function RequestRecord(a: RequestArgs, dumps: Serializer, now: int): (r: Result<Record>)
    requires RequestArgsWellFormed(a)
    // it raises exactly where the payload fields raise
    ensures r.Err? <==> Truthy(a.requestPayload) && PayloadFields(a.requestPayload, dumps).Err?
    ensures r.Ok? ==> var rec := r.value;
      // the named arguments are stored as given
      && Stores(rec, ApiEndpoint, a.apiEndpoint) && Stores(rec, ClientId, a.clientId)
      && Stores(rec, MatterId, a.matterId) && Stores(rec, PhoneNumber, a.phoneNumber)
      && Stores(rec, SessionId, a.sessionId) && Stores(rec, FileName, a.fileName)
      && Stores(rec, FileType, a.fileType) && Stores(rec, DocumentType, a.documentType)
      // keyword arguments override every computed field
      && (forall k :: k in a.extra ==> k in rec && rec[k] == a.extra[k])
      && Stores(rec, HttpMethod, Get(a.extra, HttpMethod, Str("POST")))
      && (FileUploaded !in a.extra ==> Stores(rec, FileUploaded, Bool(a.fileName != Null)))
      && (RequestStartTime !in a.extra ==> Stores(rec, RequestStartTime, Time(now)))
      // a falsy payload adds neither payload field
      && (!Truthy(a.requestPayload) ==>
            && RequestPayload !in rec
            && (RequestPayloadSize in rec <==> RequestPayloadSize in a.extra))
      // a truthy payload's fields, as `PayloadFields` states them for text,
      // serialised dicts and lists, unless a keyword argument overrides them
      && (Truthy(a.requestPayload) ==>
            && Stores(rec, RequestPayload, PayloadFields(a.requestPayload, dumps).value[RequestPayload])
            && (RequestPayloadSize !in a.extra ==>
                  Stores(rec, RequestPayloadSize, PayloadFields(a.requestPayload, dumps).value[RequestPayloadSize])))
  {
    var base := RequestBase(a, now);
    if !Truthy(a.requestPayload) then Ok(base + a.extra)
    else match PayloadFields(a.requestPayload, dumps)
      case Err(e) => Err(e)
      case Ok(fields) => Ok(base + fields + a.extra)
  }

  /** A payload of 150000 characters is stored as its first 100000 followed
      by the marker, and its size is recorded as 150000. */
  lemma LongPayloadTruncated(a: RequestArgs, dumps: Serializer, now: int)
    requires RequestArgsWellFormed(a) && a.extra == map[]
    requires a.requestPayload.Str? && |a.requestPayload.s| == 150000
    ensures var r := RequestRecord(a, dumps, now);
            && r.Ok?
            && Stores(r.value, RequestPayloadSize, Int(150000))
            && Stores(r.value, RequestPayload, Str(a.requestPayload.s[..100000] + "... [truncated]"))
  {
  }

  /** A request record holds exactly the fields always set, the two payload
      fields when the payload is truthy, and the keyword arguments: no field
      that `_insert_log` reads with a default (`is_success`, `environment`,
      `created_at`, ...) is present unless the caller passed it. */
  lemma RequestRecordKeys(a: RequestArgs, dumps: Serializer, now: int)
    requires RequestArgsWellFormed(a)
    ensures var r := RequestRecord(a, dumps, now);
            r.Ok? ==>
              r.value.Keys == {ApiEndpoint, HttpMethod, ClientId, MatterId, PhoneNumber, SessionId,
                               RequestStartTime, FileUploaded, FileName, FileType, DocumentType}
                              + a.extra.Keys
                              + (if Truthy(a.requestPayload) then {RequestPayload, RequestPayloadSize} else {})
  {
  }

  /** A dict payload is serialised before it is measured and truncated:
      the record stores the truncated text and the text's full length, and
      when serialising raises, so does the builder. */
  lemma DictPayloadSerialised(a: RequestArgs, dumps: Serializer, now: int)
    requires RequestArgsWellFormed(a) && RequestPayloadSize !in a.extra
    requires a.requestPayload.Dict? && a.requestPayload.entries != map[]
    ensures var r := RequestRecord(a, dumps, now);
            && (r.Err? <==> dumps(a.requestPayload.entries).None?)
            && (r.Ok? ==>
                  var text := dumps(a.requestPayload.entries).value;
                  && Stores(r.value, RequestPayload, Str(StoredPayload(text)))
                  && Stores(r.value, RequestPayloadSize, Int(|text|)))
  {
  }

  // ---------------------------------------------------------------------------
  // Response records
  // ---------------------------------------------------------------------------

  /** The arguments of `log_excalibur_response`, with its defaults; `extra`
      holds the `**kwargs`. */
  datatype ResponseArgs = ResponseArgs(
    apiEndpoint: Value,
    clientId: Value,
    httpStatusCode: Value,
    responseTime: Value,
    responsePayload: Value := Null,
    isSuccess: Value := Null,
    exceptionThrown: Value := Bool(false),
    exceptionMessage: Value := Null,
    errorSource: Value := Null,
    sslVerified: Value := Bool(true),
    retryCount: Value := Int(0),
    extra: Record := map[])

  /** As for requests, `**kwargs` never holds a parameter's name. */
  predicate ResponseArgsWellFormed(a: ResponseArgs) {
    && ApiEndpoint !in a.extra && ClientId !in a.extra && HttpStatusCode !in a.extra
    && ResponseTime !in a.extra && ResponsePayload !in a.extra && IsSuccess !in a.extra
    && ExceptionThrown !in a.extra && ExceptionMessage !in a.extra
    && ErrorSource !in a.extra && SslVerified !in a.extra && RetryCount !in a.extra
  }

  /** What the envelope reading found: a result message from the body, or
      the three fields of the footer. */
  datatype Envelope =
    | Body(message: Value)
    | Footer(message: Value, exceptionThrown: Value, exceptionMessage: Value)

  /** `response_json` for a truthy payload: text is parsed, anything else is
      used as it is; None where parsing raises. */
  function ParsedPayload(payload: Value, loads: Parser): Option<Value> {
    if payload.Str? then loads(payload.s) else Some(payload)
  }

  /** `EnvelopeBody[0].get('ResultMessage')`, which only a list whose first
      element is a dict survives (indexing text or a dict, or calling `get`
      on a non-dict, raises). */
  function BodyMessage(body: Value): Option<Envelope> {
    if body.List? && body.items != [] && body.items[0].Dict? then
      Some(Body(Get(body.items[0].entries, "ResultMessage")))
    else
      None
  }

  /** The `elif 'EnvelopeFooter' in response_json` branch. */
  function FooterFields(d: map<string, Value>): Option<Envelope> {
    if "EnvelopeFooter" in d && d["EnvelopeFooter"].Dict? then
      var f := d["EnvelopeFooter"].entries;
      Some(Footer(Get(f, "ResponseMessage"), Get(f, "ExceptionThrown", Bool(false)), Get(f, "ExceptionMessage")))
    else
      None
  }

  /** The body of the `try` block on the parsed payload: None where no
      envelope is recognised or an operation raises. Only a dict can get
      through: `in` on a number raises, and indexing text or a list by a
      string raises. */
  function ReadEnvelope(json: Value): Option<Envelope> {
    match json
    case Dict(d) =>
      if "EnvelopeBody" in d then
        match Len(d["EnvelopeBody"])
        case None => None
        case Some(n) => if n > 0 then BodyMessage(d["EnvelopeBody"]) else FooterFields(d)
      else
        FooterFields(d)
    case _ => None
  }

  /** The three values the extraction can change. */
  datatype Extracted = Extracted(message: Value, exceptionThrown: Value, exceptionMessage: Value)

  /** The parsed payload is a dict whose `EnvelopeBody` is a non-empty list
      starting with a dict: the body branch completes. */
  predicate HasBody(json: Value) {
    && json.Dict? && "EnvelopeBody" in json.entries
    && var body := json.entries["EnvelopeBody"];
       body.List? && body.items != [] && body.items[0].Dict?
  }

  /** The parsed payload is a dict with no non-empty `EnvelopeBody` and with
      an `EnvelopeFooter` that is a dict: the footer branch completes. */
  predicate HasFooter(json: Value) {
    && json.Dict?
    && ("EnvelopeBody" !in json.entries || Len(json.entries["EnvelopeBody"]) == Some(0))
    && "EnvelopeFooter" in json.entries && json.entries["EnvelopeFooter"].Dict?
  }

  /** The guarded extraction of `log_excalibur_response`; it never raises. */
  function ExtractMessage(payload: Value, thrown: Value, message: Value, loads: Parser): (x: Extracted)
    // nothing to read, unparseable text, or no branch that completes: the
    // message stays None and the exception fields stay as given
    ensures (|| !Truthy(payload) || ParsedPayload(payload, loads).None?
             || (!HasBody(ParsedPayload(payload, loads).value) && !HasFooter(ParsedPayload(payload, loads).value))) ==>
              x == Extracted(Null, thrown, message)
    // a non-empty body wins over the footer and leaves the exception fields alone
    ensures Truthy(payload) && ParsedPayload(payload, loads).Some? && HasBody(ParsedPayload(payload, loads).value) ==>
              var first := ParsedPayload(payload, loads).value.entries["EnvelopeBody"].items[0];
              x == Extracted(Get(first.entries, "ResultMessage"), thrown, message)
    // otherwise a footer replaces all three fields
    ensures Truthy(payload) && ParsedPayload(payload, loads).Some? && HasFooter(ParsedPayload(payload, loads).value) ==>
              var f := ParsedPayload(payload, loads).value.entries["EnvelopeFooter"].entries;
              x == Extracted(Get(f, "ResponseMessage"), Get(f, "ExceptionThrown", Bool(false)), Get(f, "ExceptionMessage"))
    // the exception fields change only through a footer
    ensures x.exceptionThrown != thrown || x.exceptionMessage != message ==>
              Truthy(payload) && ParsedPayload(payload, loads).Some? && HasFooter(ParsedPayload(payload, loads).value)
  {
    if !Truthy(payload) then Extracted(Null, thrown, message)
    else match ParsedPayload(payload, loads)
      case None => Extracted(Null, thrown, message)
      case Some(json) =>
        match ReadEnvelope(json)
        case Some(Body(m)) => Extracted(m, thrown, message)
        case Some(Footer(m, t, e)) => Extracted(m, t, e)
        case None => Extracted(Null, thrown, message)
  }

  /** `is_success` when the caller gave none: status 200 and no exception. */
  function InferredSuccess(status: Value, thrown: Value): Value {
    Bool(status == Int(200) && !Truthy(thrown))
  }

  /** The stored response payload: a dict is serialised (None where that
      raises), anything else is kept as it is. */
  function StoredResponsePayload(payload: Value, dumps: Serializer): Option<Value> {
    if payload.Dict? then
      match dumps(payload.entries)
      case Some(s) => Some(Str(s))
      case None => None
    else
      Some(payload)
  }

  /** The fields `log_excalibur_response` always sets, given the
      extraction's results and the success flag. */
  function ResponseBase(a: ResponseArgs, x: Extracted, success: Value, now: int): (b: Record)
    ensures ResponsePayload !in b
    ensures && Stores(b, ApiEndpoint, a.apiEndpoint) && Stores(b, ClientId, a.clientId)
            && Stores(b, HttpStatusCode, a.httpStatusCode) && Stores(b, ResponseTime, a.responseTime)
            && Stores(b, ResponseMessage, x.message) && Stores(b, IsSuccess, success)
            && Stores(b, ExceptionThrown, x.exceptionThrown) && Stores(b, ExceptionMessage, x.exceptionMessage)
            && Stores(b, ErrorSource, a.errorSource) && Stores(b, SslVerified, a.sslVerified)
            && Stores(b, RetryCount, a.retryCount) && Stores(b, RequestEndTime, Time(now))
  {
    map[
      ApiEndpoint := a.apiEndpoint,
      ClientId := a.clientId,
      HttpStatusCode := a.httpStatusCode,
      ResponseTime := a.responseTime,
      ResponseMessage := x.message,
      IsSuccess := success,
      ExceptionThrown := x.exceptionThrown,
      ExceptionMessage := x.exceptionMessage,
      ErrorSource := a.errorSource,
      SslVerified := a.sslVerified,
      RetryCount := a.retryCount,
      RequestEndTime := Time(now)]
  }

  /** The record `log_excalibur_response` builds, or the TypeError that
      serialising a dict payload raises. */
  function ResponseRecord(a: ResponseArgs, loads: Parser, dumps: Serializer, now: int): (r: Result<Record>)
    requires ResponseArgsWellFormed(a)
    ensures r.Err? <==> Truthy(a.responsePayload) && a.responsePayload.Dict? && dumps(a.responsePayload.entries).None?
    ensures r.Ok? ==> var rec := r.value;
      var x := ExtractMessage(a.responsePayload, a.exceptionThrown, a.exceptionMessage, loads);
      // the extraction's results are what is stored
      && Stores(rec, ExceptionThrown, x.exceptionThrown)
      && Stores(rec, ExceptionMessage, x.exceptionMessage)
      && (ResponseMessage !in a.extra ==> Stores(rec, ResponseMessage, x.message))
      // success is inferred after extraction, unless it was given
      && Stores(rec, IsSuccess, if a.isSuccess == Null
                                then Bool(a.httpStatusCode == Int(200) && !Truthy(rec[ExceptionThrown]))
                                else a.isSuccess)
      && Stores(rec, ApiEndpoint, a.apiEndpoint) && Stores(rec, ClientId, a.clientId)
      && Stores(rec, HttpStatusCode, a.httpStatusCode) && Stores(rec, ResponseTime, a.responseTime)
      && Stores(rec, ErrorSource, a.errorSource) && Stores(rec, SslVerified, a.sslVerified)
      && Stores(rec, RetryCount, a.retryCount)
      && (RequestEndTime !in a.extra ==> Stores(rec, RequestEndTime, Time(now)))
      && (forall k :: k in a.extra ==> k in rec && rec[k] == a.extra[k])
      && (ResponsePayload in rec <==> Truthy(a.responsePayload))
      && (Truthy(a.responsePayload) && !a.responsePayload.Dict? ==> Stores(rec, ResponsePayload, a.responsePayload))
      && (Truthy(a.responsePayload) && a.responsePayload.Dict? ==>
            Stores(rec, ResponsePayload, Str(dumps(a.responsePayload.entries).value)))
  {
    var x := ExtractMessage(a.responsePayload, a.exceptionThrown, a.exceptionMessage, loads);
    var success := if a.isSuccess == Null then InferredSuccess(a.httpStatusCode, x.exceptionThrown) else a.isSuccess;
    var base := ResponseBase(a, x, success, now);
    if !Truthy(a.responsePayload) then Ok(base + a.extra)
    else match StoredResponsePayload(a.responsePayload, dumps)
      case None => Err(TypeError)
      case Some(stored) => Ok(base[ResponsePayload := stored] + a.extra)
  }

  /** A response record holds exactly the fields always set, the payload
      when it is truthy, and the keyword arguments. */
  lemma ResponseRecordKeys(a: ResponseArgs, loads: Parser, dumps: Serializer, now: int)
    requires ResponseArgsWellFormed(a)
    ensures var r := ResponseRecord(a, loads, dumps, now);
            r.Ok? ==>
              r.value.Keys == {ApiEndpoint, ClientId, HttpStatusCode, ResponseTime, ResponseMessage, IsSuccess,
                               ExceptionThrown, ExceptionMessage, ErrorSource, SslVerified, RetryCount, RequestEndTime}
                              + a.extra.Keys + (if Truthy(a.responsePayload) then {ResponsePayload} else {})
  {
  }

  /** A payload that does not parse never raises: the record is built and
      its response message is None. */
  lemma MalformedPayloadIgnored(a: ResponseArgs, loads: Parser, dumps: Serializer, now: int)
    requires ResponseArgsWellFormed(a) && ResponseMessage !in a.extra
    requires a.responsePayload.Str? && a.responsePayload.s != "" && loads(a.responsePayload.s).None?
    ensures var r := ResponseRecord(a, loads, dumps, now);
            && r.Ok?
            && Stores(r.value, ResponseMessage, Null)
            && Stores(r.value, ExceptionThrown, a.exceptionThrown)
            && Stores(r.value, ExceptionMessage, a.exceptionMessage)
  {
  }
}
