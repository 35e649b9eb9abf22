/** The asynchronous logger: an unbounded FIFO of records, one worker that
    takes records off the head and makes one insert attempt for each, and
    the drain-then-stop shutdown. The worker thread is replaced by explicit
    steps, so each step happens atomically and in the order the caller of
    the model chooses. */
module AsyncLogger {
  import opened PyValues
  import opened Lookup
  import opened Writer
  import opened Builders

  /** `log_api_call` stamps the record with the submission time only when it
      carries no `created_at`; nothing else in the record changes. */
  function Stamp(r: Record, now: int): (s: Record)
    ensures Stores(s, CreatedAt, if CreatedAt in r then r[CreatedAt] else Time(now))
    ensures s.Keys == r.Keys + {CreatedAt}
    ensures forall k :: k in r && k != CreatedAt ==> s[k] == r[k]
  {
    if CreatedAt in r then r else r[CreatedAt := Time(now)]
  }

  /** One insert attempt the worker made, and what became of it. */
  datatype Attempt = Attempt(record: Record, outcome: InsertOutcome)

  /** The rows that the given attempts wrote, in order. */
  function WrittenRows(attempts: seq<Attempt>): seq<InsertParams>
    decreases |attempts|
  {
    if attempts == [] then []
    else
      var last := attempts[|attempts| - 1].outcome;
      WrittenRows(attempts[..|attempts| - 1]) + (if last.Written? then [last.params] else [])
  }

  /** The worker taking the given records off the queue one by one, the
      k-th under database conditions `env(k)`: the database afterwards and
      the attempts made. */
  function Run(db: DbState, records: seq<Record>, env: nat -> DbConditions): (res: (DbState, seq<Attempt>))
    // exactly one attempt per record, in queue order
    ensures |res.1| == |records|
    ensures forall k :: 0 <= k < |records| ==> res.1[k].record == records[k]
    // the read-only tables stay as they are; the event table gains exactly the written rows
    ensures res.0.methods == db.methods && res.0.environments == db.environments
    ensures res.0.events == db.events + WrittenRows(res.1)
    ensures DbValid(db) ==> DbValid(res.0)
    decreases |records|
  {
    if records == [] then (db, [])
    else
      var last := |records| - 1;
      var (before, tried) := Run(db, records[..last], env);
      var (after, outcome) := InsertLogSpec(before, records[last], env(last));
      var attempt := Attempt(records[last], outcome);
      assert (tried + [attempt])[..|tried|] == tried;
      (after, tried + [attempt])
  }

  /** Running one more record extends the run by exactly that record's attempt. */
  lemma RunExtend(db: DbState, records: seq<Record>, k: nat, env: nat -> DbConditions)
    requires k < |records|
    ensures var prefix := Run(db, records[..k], env);
            var step := InsertLogSpec(prefix.0, records[k], env(k));
            Run(db, records[..k + 1], env) == (step.0, prefix.1 + [Attempt(records[k], step.1)])
  {
    assert records[..k + 1][..k] == records[..k];
  }

  /** `ExcaliburAPILogger`. `attempts` records every insert attempt the
      worker has made; the source keeps no such list. */
  class Logger {
    const db: Database
    var queue: seq<Record>
    var unfinished: nat
    var isRunning: bool
    ghost var attempts: seq<Attempt>

    /** Between steps every queued record is an unfinished task. */
    ghost predicate Valid()
      reads this, db, db.errorSources, db.fileTypes
    {
      db.Valid() && unfinished == |queue|
    }

    /** `__init__`: running, with an empty queue. */
    constructor (db: Database)
      requires db.Valid()
      ensures Valid() && this.db == db
      ensures isRunning && queue == [] && attempts == []
    {
      this.db := db;
      queue := [];
      unfinished := 0;
      isRunning := true;
      attempts := [];
    }

    /** `log_api_call`: stamp the record and append it at the tail. */
    method LogApiCall(r: Record, now: int)
      requires Valid()
      modifies this
      ensures Valid()
      ensures queue == old(queue) + [Stamp(r, now)]
      ensures isRunning == old(isRunning) && attempts == old(attempts)
    {
      queue := queue + [Stamp(r, now)];
      unfinished := unfinished + 1;
    }

    /** One iteration of the worker loop of `_process_logs`: once stopped it
        does nothing; on an empty queue the poll times out; otherwise the head
        is removed, inserted once, and marked done. */
    method ProcessNext(c: DbConditions)
      requires Valid()
      modifies this, db, db.errorSources, db.fileTypes
      ensures Valid() && isRunning == old(isRunning)
      ensures !old(isRunning) || old(queue) == [] ==>
                && queue == old(queue) && unfinished == old(unfinished)
                && attempts == old(attempts) && db.State() == old(db.State())
      ensures old(isRunning) && old(queue) != [] ==>
                var step := InsertLogSpec(old(db.State()), old(queue)[0], c);
                && queue == old(queue)[1..] && unfinished == old(unfinished) - 1
                && db.State() == step.0
                && attempts == old(attempts) + [Attempt(old(queue)[0], step.1)]
    {
      if !isRunning || queue == [] {
        return;
      }
      var r := queue[0];
      queue := queue[1..];
      var outcome := db.InsertLog(r, c);
      attempts := attempts + [Attempt(r, outcome)];
      unfinished := unfinished - 1;
    }

    /** `log_queue.join()` while the worker runs: worker iterations until no
        task is unfinished. The k-th record drained meets conditions `env(k)`. */
    method Drain(env: nat -> DbConditions)
      requires Valid() && (isRunning || queue == [])
      modifies this, db, db.errorSources, db.fileTypes
      ensures Valid() && isRunning == old(isRunning)
      ensures queue == [] && unfinished == 0
      ensures var run := Run(old(db.State()), old(queue), env);
              db.State() == run.0 && attempts == old(attempts) + run.1
    {
      ghost var records := queue;
      ghost var db0 := db.State();
      ghost var attempts0 := attempts;
      var k := 0;
      while queue != []
        invariant Valid() && isRunning == old(isRunning)
        invariant isRunning || queue == []
        invariant 0 <= k <= |records| && queue == records[k..]
        invariant var prefix := Run(db0, records[..k], env);
                  db.State() == prefix.0 && attempts == attempts0 + prefix.1
        decreases |queue|
      {
        ghost var prefix := Run(db0, records[..k], env);
        ghost var step := InsertLogSpec(prefix.0, records[k], env(k));
        RunExtend(db0, records, k, env);
        ProcessNext(env(k));
        assert attempts == attempts0 + (prefix.1 + [Attempt(records[k], step.1)]);
        k := k + 1;
      }
      assert records[..k] == records;
    }

    /** `shutdown`: drain the queue, then clear the running flag. The
        source's `join` blocks forever when records are queued after the
        worker has stopped, so that case is excluded. */
    method Shutdown(env: nat -> DbConditions)
      requires Valid() && (isRunning || queue == [])
      modifies this, db, db.errorSources, db.fileTypes
      ensures Valid() && !isRunning && queue == [] && unfinished == 0
      ensures var run := Run(old(db.State()), old(queue), env);
              db.State() == run.0 && attempts == old(attempts) + run.1
    {
      Drain(env);
      isRunning := false;
    }
  }

  /** The module-level `_logger_instance` behind `get_api_logger`. */
  class Registry {
    var instance: Logger?

    ghost predicate Valid()
      reads this, instance
      reads if instance != null then {instance.db, instance.db.errorSources, instance.db.fileTypes} else {}
    {
      instance != null ==> instance.Valid()
    }

    constructor ()
      ensures Valid() && instance == null
    {
      instance := null;
    }

    /** `get_api_logger`: the first call creates the logger on the database
        the configuration names; later calls return that same logger. */
    method GetApiLogger(db: Database) returns (logger: Logger)
      requires Valid() && db.Valid()
      modifies this
      ensures Valid() && instance == logger
      ensures old(instance) != null ==> logger == old(instance)
      ensures old(instance) == null ==>
                fresh(logger) && logger.db == db && logger.isRunning && logger.queue == [] && logger.attempts == []
    {
      if instance == null {
        instance := new Logger(db);
      }
      logger := instance;
    }
  }

  /** `log_excalibur_request`: obtain the logger, build the record (which can
      raise), and submit it. */
  method LogRequest(registry: Registry, db: Database, a: RequestArgs, dumps: Serializer, now: int)
    returns (raised: Option<PyError>)
    requires registry.Valid() && db.Valid() && RequestArgsWellFormed(a)
    modifies registry, registry.instance
    ensures registry.Valid() && registry.instance != null
    ensures old(registry.instance) != null ==> registry.instance == old(registry.instance)
    ensures old(registry.instance) == null ==> fresh(registry.instance) && registry.instance.db == db
    // the logger keeps its running flag and its attempts
    ensures registry.instance.isRunning == old(if registry.instance == null then true else registry.instance.isRunning)
    ensures registry.instance.attempts == old(if registry.instance == null then [] else registry.instance.attempts)
    ensures var built := RequestRecord(a, dumps, now);
            && raised == (if built.Err? then Some(built.error) else None)
            && registry.instance.queue ==
               old(if registry.instance == null then [] else registry.instance.queue)
               + (if built.Ok? then [Stamp(built.value, now)] else [])
  {
    var logger := registry.GetApiLogger(db);
    var built := RequestRecord(a, dumps, now);
    match built {
      case Err(e) =>
        raised := Some(e);
      case Ok(r) =>
        logger.LogApiCall(r, now);
        raised := None;
    }
  }

  /** `log_excalibur_response`: obtain the logger, build the record (which
      raises only when a dict payload cannot be serialised), and submit it. */
  method LogResponse(registry: Registry, db: Database, a: ResponseArgs, loads: Parser, dumps: Serializer, now: int)
    returns (raised: Option<PyError>)
    requires registry.Valid() && db.Valid() && ResponseArgsWellFormed(a)
    modifies registry, registry.instance
    ensures registry.Valid() && registry.instance != null
    ensures old(registry.instance) != null ==> registry.instance == old(registry.instance)
    ensures old(registry.instance) == null ==> fresh(registry.instance) && registry.instance.db == db
    // the logger keeps its running flag and its attempts
    ensures registry.instance.isRunning == old(if registry.instance == null then true else registry.instance.isRunning)
    ensures registry.instance.attempts == old(if registry.instance == null then [] else registry.instance.attempts)
    ensures var built := ResponseRecord(a, loads, dumps, now);
            && raised == (if built.Err? then Some(built.error) else None)
            && registry.instance.queue ==
               old(if registry.instance == null then [] else registry.instance.queue)
               + (if built.Ok? then [Stamp(built.value, now)] else [])
  {
    var logger := registry.GetApiLogger(db);
    var built := ResponseRecord(a, loads, dumps, now);
    match built {
      case Err(e) =>
        raised := Some(e);
      case Ok(r) =>
        logger.LogApiCall(r, now);
        raised := None;
    }
  }

  /** End to end: a response with no payload, no explicit success flag and
      a textual or absent exception message is stored with IsSuccess 1
      exactly when its status is 200 and no exception was thrown, and
      without an error source it gets the 'N/A' key; its exception message
      is stored cut to 500 characters. */
  lemma ResponseSuccessStored(a: ResponseArgs, loads: Parser, dumps: Serializer, now: int,
                              db: DbState, c: DbConditions, submitted: int)
    requires ResponseArgsWellFormed(a) && a.extra == map[]
    requires a.responsePayload == Null && a.isSuccess == Null
    requires a.exceptionMessage == Null || a.exceptionMessage.Str?
    requires !c.connectFails && !c.writeFails
    ensures var r := ResponseRecord(a, loads, dumps, now);
            && r.Ok?
            && var (_, outcome) := InsertLogSpec(db, Stamp(r.value, submitted), c);
               && outcome.Written?
               && (outcome.params.isSuccess == 1 <==> a.httpStatusCode == Int(200) && !Truthy(a.exceptionThrown))
               && (a.errorSource == Null ==> outcome.params.errorSourceId == ErrorSourceNotApplicable)
               && outcome.params.exceptionMessage == ExceptionMessageParam(a.exceptionMessage).value
  {
    var r := ResponseRecord(a, loads, dumps, now);
    var stamped := Stamp(r.value, submitted);
    assert Stores(stamped, IsSuccess, InferredSuccess(a.httpStatusCode, a.exceptionThrown));
    assert Get(stamped, ExceptionMessage) == a.exceptionMessage;
    assert Get(stamped, ErrorSource) == a.errorSource;
  }
}
