/** The record writer, `_insert_log`: it resolves the categorical fields of
    a record, maps the record to the parameters of one insert into the event
    table, and performs that insert. Connection, query and write failures are
    explicit inputs; each is caught and the record is dropped. */
module Writer {
  import opened PyValues
  import opened Lookup

  /** ErrorSourceID 5 is the 'N/A' row, stored when no error source resolved. */
  const ErrorSourceNotApplicable: int := 5
  /** FileTypeID 49 is the 'N/A' row, stored when no file type resolved. */
  const FileTypeNotApplicable: int := 49
  /** Exception messages are stored up to this many characters. */
  const ExceptionMessageLimit: nat := 500

  /** The keys the five resolvers produced for one record. */
  datatype ResolvedIds = ResolvedIds(
    httpMethod: Option<int>,
    httpStatusCode: Option<int>,
    errorSource: Option<int>,
    environment: Option<int>,
    fileType: Option<int>)

  /** The bound parameters of the insert into the event table; `Null` and
      `None` are SQL NULL. */
  datatype InsertParams = InsertParams(
    endpoint: Value,
    httpMethodId: Option<int>,
    clientPhoneNumber: Value,
    debtorPhoneNumber: Value,
    httpStatusCodeId: Option<int>,
    responseTime: Value,
    isSuccess: int,
    errorSourceId: int,
    exceptionMessage: Value,
    retryCount: Value,
    environmentId: Option<int>,
    matterId: Value,
    fileName: Value,
    fileTypeId: int,
    dateCreated: Value)

  /** `exception_message[:500] if exception_message else None`: slicing works
      on text and lists and raises on anything else truthy (the error is
      caught by `_insert_log` whatever its class). */
  function ExceptionMessageParam(message: Value): (p: Result<Value>)
    ensures !Truthy(message) <==> p == Ok(Null)
    ensures p.Err? <==> Truthy(message) && !message.Str? && !message.List?
    ensures Truthy(message) && message.Str? ==>
              && p.Ok? && p.value.Str?
              && |p.value.s| == Min(ExceptionMessageLimit, |message.s|)
              && p.value.s <= message.s
    ensures message.Str? && |message.s| <= ExceptionMessageLimit ==> p == Ok(if message.s == "" then Null else message)
    ensures Truthy(message) && message.List? ==>
              p == Ok(List(message.items[..Min(ExceptionMessageLimit, |message.items|)]))
  {
    if !Truthy(message) then Ok(Null)
    else match message
      case Str(s) =>
        assert s[..|s|] == s;
        Ok(Str(s[..Min(ExceptionMessageLimit, |s|)]))
      case List(items) => Ok(List(items[..Min(ExceptionMessageLimit, |items|)]))
      case _ => Err(TypeError)
  }

  /** The parameter mapping of `_insert_log`, given the resolved keys and the
      current time (used when the record carries no `created_at`). */
  function InsertParamsOf(r: Record, ids: ResolvedIds, now: int): (p: Result<InsertParams>)
    ensures p.Err? <==> ExceptionMessageParam(Get(r, ExceptionMessage)).Err?
    ensures p.Ok? ==> var q := p.value;
      // sentinels for keys that did not resolve; resolved keys pass through
      && q.errorSourceId == (if ids.errorSource.Some? then ids.errorSource.value else ErrorSourceNotApplicable)
      && q.fileTypeId == (if ids.fileType.Some? then ids.fileType.value else FileTypeNotApplicable)
      && q.httpMethodId == ids.httpMethod
      && q.httpStatusCodeId == ids.httpStatusCode
      && q.environmentId == ids.environment
      // the success flag is 1 exactly when the field is truthy, else 0
      && (q.isSuccess == 1 <==> Truthy(Get(r, IsSuccess)))
      && (q.isSuccess == 0 || q.isSuccess == 1)
      // retry count defaults to 0 only when the key is absent
      && (RetryCount !in r ==> q.retryCount == Int(0))
      && (RetryCount in r ==> q.retryCount == r[RetryCount])
      // the exception message is NULL when absent or empty
      && (q.exceptionMessage == Null <==> !Truthy(Get(r, ExceptionMessage)))
      // phone numbers: the first field when truthy, else the fallback field
      && (Truthy(Get(r, ClientId)) ==> q.clientPhoneNumber == r[ClientId])
      && (!Truthy(Get(r, ClientId)) ==> q.clientPhoneNumber == Get(r, ClientPhoneNumber))
      && (Truthy(Get(r, PhoneNumber)) ==> q.debtorPhoneNumber == r[PhoneNumber])
      && (!Truthy(Get(r, PhoneNumber)) ==> q.debtorPhoneNumber == Get(r, DebtorPhoneNumber))
      && q.dateCreated == (if CreatedAt in r then r[CreatedAt] else Time(now))
      && q.endpoint == Get(r, ApiEndpoint)
      // the stored message is the cut of `ExceptionMessageParam`; other fields are copied
      && q.exceptionMessage == ExceptionMessageParam(Get(r, ExceptionMessage)).value
      && q.responseTime == Get(r, ResponseTime)
      && q.matterId == Get(r, MatterId)
      && q.fileName == Get(r, FileName)
  {
    var message := ExceptionMessageParam(Get(r, ExceptionMessage));
    if message.Err? then Err(message.error)
    else Ok(InsertParams(
      endpoint := Get(r, ApiEndpoint),
      httpMethodId := ids.httpMethod,
      clientPhoneNumber := Or(Get(r, ClientId), Get(r, ClientPhoneNumber)),
      debtorPhoneNumber := Or(Get(r, PhoneNumber), Get(r, DebtorPhoneNumber)),
      httpStatusCodeId := ids.httpStatusCode,
      responseTime := Get(r, ResponseTime),
      isSuccess := if Truthy(Get(r, IsSuccess)) then 1 else 0,
      errorSourceId := if ids.errorSource.Some? then ids.errorSource.value else ErrorSourceNotApplicable,
      exceptionMessage := message.value,
      retryCount := Get(r, RetryCount, Int(0)),
      environmentId := ids.environment,
      matterId := Get(r, MatterId),
      fileName := Get(r, FileName),
      fileTypeId := if ids.fileType.Some? then ids.fileType.value else FileTypeNotApplicable,
      dateCreated := Get(r, CreatedAt, Time(now))))
  }

  /** How the database behaves during one `_insert_log`, and the clock. */
  datatype DbConditions = DbConditions(
    connectFails: bool,
    methodQueryFails: bool,
    errorSourceFault: Fault,
    environmentQueryFails: bool,
    fileTypeFault: Fault,
    writeFails: bool,
    now: int)

  /** What became of one insert attempt. */
  datatype InsertOutcome =
    | Written(params: InsertParams)
    | ConnectFailed
    | ParamsFailed(error: PyError)
    | WriteFailed(params: InsertParams)

  /** The database: two read-only reference tables, two auto-provisioned
      ones, and the rows of the event table. */
  datatype DbState = DbState(
    methods: map<string, int>,
    errorSources: TableState,
    environments: map<string, int>,
    fileTypes: TableState,
    events: seq<InsertParams>)

  ghost predicate DbValid(db: DbState) {
    TableValid(db.errorSources) && TableValid(db.fileTypes)
  }

  /** The fields `_insert_log` reads for its resolvers, with its defaults. */
  function MethodField(r: Record): Value { Get(r, HttpMethod, Str("POST")) }
  function EnvironmentField(r: Record): Value { Get(r, Environment, Str(DefaultEnvironment)) }

  /** The keys the five resolvers of `_insert_log` produce for a record. */
  function ResolvedKeys(db: DbState, r: Record, c: DbConditions): ResolvedIds {
    ResolvedIds(
      ResolveHttpMethod(db.methods, MethodField(r), c.methodQueryFails),
      ResolveStatusCode(Get(r, HttpStatusCode)),
      Provision(db.errorSources, Get(r, ErrorSource), c.errorSourceFault).1,
      ResolveEnvironment(db.environments, EnvironmentField(r), c.environmentQueryFails),
      Provision(db.fileTypes, Get(r, FileType), c.fileTypeFault).1)
  }

  /** One `_insert_log` on the database's state: the new state and the outcome. */
  function InsertLogSpec(db: DbState, r: Record, c: DbConditions): (res: (DbState, InsertOutcome))
    ensures res.0.methods == db.methods && res.0.environments == db.environments
    ensures res.0.events == db.events + (if res.1.Written? then [res.1.params] else [])
    ensures c.connectFails ==> res == (db, ConnectFailed)
    ensures res.1.Written? ==> !c.writeFails && !c.connectFails
    ensures !c.connectFails && !c.writeFails && ExceptionMessageParam(Get(r, ExceptionMessage)).Ok? ==>
              res.1.Written?
    ensures res.1.Written? || res.1.WriteFailed? ==>
              && res.1.params.errorSourceId ==
                 (var id := Provision(db.errorSources, Get(r, ErrorSource), c.errorSourceFault).1;
                  if id.Some? then id.value else ErrorSourceNotApplicable)
              && res.1.params.fileTypeId ==
                 (var id := Provision(db.fileTypes, Get(r, FileType), c.fileTypeFault).1;
                  if id.Some? then id.value else FileTypeNotApplicable)
    ensures DbValid(db) ==> DbValid(res.0)
  {
    if c.connectFails then (db, ConnectFailed)
    else
      var resolved := db.(
        errorSources := Provision(db.errorSources, Get(r, ErrorSource), c.errorSourceFault).0,
        fileTypes := Provision(db.fileTypes, Get(r, FileType), c.fileTypeFault).0);
      match InsertParamsOf(r, ResolvedKeys(db, r, c), c.now)
      case Err(e) => (resolved, ParamsFailed(e))
      case Ok(p) =>
        if c.writeFails then (resolved, WriteFailed(p))
        else (resolved.(events := resolved.events + [p]), Written(p))
  }

  /** What one `_insert_log` leaves behind: once connected, the two
      auto-provisioned tables are what their resolvers leave; the row it
      attempts is the parameter mapping of the keys its five resolvers
      produce; the mapping raising is the only way to reach `ParamsFailed`;
      and a connected attempt with a working write stores exactly that row. */
  lemma InsertLogRow(db: DbState, r: Record, c: DbConditions)
    ensures var (after, outcome) := InsertLogSpec(db, r, c);
            var params := InsertParamsOf(r, ResolvedKeys(db, r, c), c.now);
            && (!c.connectFails ==>
                  && after.errorSources == Provision(db.errorSources, Get(r, ErrorSource), c.errorSourceFault).0
                  && after.fileTypes == Provision(db.fileTypes, Get(r, FileType), c.fileTypeFault).0)
            && (outcome.Written? || outcome.WriteFailed? ==> params == Ok(outcome.params))
            && (outcome.ParamsFailed? <==> !c.connectFails && params.Err?)
            && (!c.connectFails && !c.writeFails && params.Ok? ==>
                  outcome == Written(params.value) && after.events == db.events + [params.value])
  {
  }

  /** The database the logger writes to. */
  class Database {
    const methods: map<string, int>
    const environments: map<string, int>
    const errorSources: ProvisionedTable
    const fileTypes: ProvisionedTable
    var events: seq<InsertParams>

    function State(): DbState
      reads this, errorSources, fileTypes
    {
      DbState(methods, errorSources.State(), environments, fileTypes.State(), events)
    }

    ghost predicate Valid()
      reads this, errorSources, fileTypes
    {
      errorSources != fileTypes && errorSources.Valid() && fileTypes.Valid()
    }

    constructor (methods: map<string, int>, environments: map<string, int>,
                 errorSources: ProvisionedTable, fileTypes: ProvisionedTable)
      requires errorSources != fileTypes && errorSources.Valid() && fileTypes.Valid()
      ensures Valid() && this.errorSources == errorSources && this.fileTypes == fileTypes
      ensures State() == DbState(methods, errorSources.State(), environments, fileTypes.State(), [])
    {
      this.methods := methods;
      this.environments := environments;
      this.errorSources := errorSources;
      this.fileTypes := fileTypes;
      this.events := [];
    }

    /** `_insert_log`: one connection, five resolvers, one insert. */
    method InsertLog(r: Record, c: DbConditions) returns (outcome: InsertOutcome)
      requires Valid()
      modifies this, errorSources, fileTypes
      ensures Valid()
      ensures (State(), outcome) == InsertLogSpec(old(State()), r, c)
    {
      if c.connectFails {
        return ConnectFailed;
      }
      var methodId := ResolveHttpMethod(methods, MethodField(r), c.methodQueryFails);
      var statusId := ResolveStatusCode(Get(r, HttpStatusCode));
      var errorSourceId := errorSources.Resolve(Get(r, ErrorSource), c.errorSourceFault);
      var environmentId := ResolveEnvironment(environments, EnvironmentField(r), c.environmentQueryFails);
      var fileTypeId := fileTypes.Resolve(Get(r, FileType), c.fileTypeFault);
      var params := InsertParamsOf(r, ResolvedIds(methodId, statusId, errorSourceId, environmentId, fileTypeId), c.now);
      match params {
        case Err(e) =>
          outcome := ParamsFailed(e);
        case Ok(p) =>
          if c.writeFails {
            outcome := WriteFailed(p);
          } else {
            events := events + [p];
            outcome := Written(p);
          }
      }
    }
  }
}
