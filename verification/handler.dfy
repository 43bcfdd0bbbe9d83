/**
 The storage-triggered handler as a pure function of its configuration, its
 event and the answers of its collaborators. Every storage call it makes is
 recorded, in order, as an effect of the invocation.
 */
module Handler {

  import opened Base
  import opened JsonValue
  import opened TargetKeys
  import opened Projection

  const NoRecordsBody := "No records"
  const SuccessMessage := "Data transformation and write successful"
  const JsonContentType := "application/json"

  /** The `s3` part of one notification record; a missing field reads as None. */
  datatype NotificationRecord = NotificationRecord(bucketName: Option<string>, objectKey: Option<string>)

  /** The triggering event; `records` is None when `Records` is absent or null. */
  datatype Event = Event(records: Option<seq<NotificationRecord>>)

  /** A bucket and an object key in it. */
  datatype Location = Location(bucket: string, key: string)

  /**
   The collaborators the handler calls, as oracles:
   `unquote` is `urllib.parse.unquote_plus`; `getObject` fetches and decodes
   the object as UTF-8 text, or fails with the client's exception (NoSuchKey
   among them); `loads` is `json.loads`; `putObject` stores a document and
   answers None, or the exception it raised.
   */
  datatype Services = Services(
    unquote: string -> string,
    getObject: (string, string) -> Result<string, Error>,
    loads: string -> Result<Json, Error>,
    putObject: (string, string, Json) -> Option<Error>)

  /** A storage call the handler made. The written text is kept as its JSON value. */
  datatype Effect =
    | GetObject(bucket: string, key: string)
    | PutObject(bucket: string, key: string, content: Json, contentType: string)

  /** The body of a returned response: plain text, or the success report. */
  datatype Body = Text(text: string) | Report(message: string, targetKey: string)

  /** How an invocation ends: a returned response or a raised exception. */
  datatype Outcome = Returned(statusCode: int, body: Body) | Raised(error: Error)

  datatype Invocation = Invocation(outcome: Outcome, effects: seq<Effect>)

  /** `TARGET_BUCKET` is truthy: set and not empty. */
  predicate Configured(target: Option<string>)
  {
    target.Some? && target.value != ""
  }

  /** `event.get('Records')` is truthy: present and not empty. */
  predicate HasRecords(event: Event)
  {
    event.records.Some? && event.records.value != []
  }

  /** The source object named by a notification record, with its key decoded. */
  function Locate(record: NotificationRecord, unquote: string -> string): (r: Result<Location, Error>)
    ensures r.Success? <==> record.bucketName.Some? && record.objectKey.Some?
    ensures r.Success? ==> r.value == Location(record.bucketName.value, unquote(record.objectKey.value))
    // A missing field raises KeyError, the bucket name being looked up first.
    ensures r.Failure? ==> r.error.KeyError?
    ensures record.bucketName.None? ==> r == Failure(KeyError("name"))
    ensures record.bucketName.Some? && record.objectKey.None? ==> r == Failure(KeyError("key"))
  {
    match record.bucketName
    case None => Failure(KeyError("name"))
    case Some(bucket) =>
      match record.objectKey
      case None => Failure(KeyError("key"))
      case Some(key) => Success(Location(bucket, unquote(key)))
  }

  /**
   Read, parse and project the source object. Any exception on the way is
   the result, unchanged.
   */
  function Transform(source: Location, io: Services): (r: Result<seq<Summary>, Error>)
    ensures io.getObject(source.bucket, source.key).Failure? ==>
              r == Failure(io.getObject(source.bucket, source.key).error)
    ensures var read := io.getObject(source.bucket, source.key);
            read.Success? && io.loads(read.value).Failure? ==> r == Failure(io.loads(read.value).error)
    ensures var read := io.getObject(source.bucket, source.key);
            read.Success? && io.loads(read.value).Success? ==> r == Project(io.loads(read.value).value)
    ensures r.Success? ==>
              && io.getObject(source.bucket, source.key).Success?
              && io.loads(io.getObject(source.bucket, source.key).value).Success?
              && Project(io.loads(io.getObject(source.bucket, source.key).value).value) == r
  {
    match io.getObject(source.bucket, source.key)
    case Failure(e) => Failure(e)
    case Success(text) =>
      match io.loads(text)
      case Failure(e) => Failure(e)
      case Success(doc) => Project(doc)
  }

  /**
   `lambda_handler`. Configuration and event are checked before any storage
   call; the write happens only once the whole transformation has succeeded;
   every exception ends the invocation unchanged.
   */
  function Handle(target: Option<string>, event: Event, io: Services): (inv: Invocation)
    // A missing or empty target bucket fails before any storage call.
    ensures !Configured(target) <==> inv == Invocation(Raised(ConfigError), [])
    // No records: a plain 400 response, and no storage call.
    ensures Configured(target) && !HasRecords(event) <==>
              inv == Invocation(Returned(400, Text(NoRecordsBody)), [])
    // The only responses returned are the 400 above and the 200 report.
    ensures inv.outcome.Returned? && inv.outcome.statusCode != 400 ==>
              inv.outcome.statusCode == 200 && inv.outcome.body.Report?
    // At most one read, then at most one write.
    ensures |inv.effects| <= 2
    ensures inv.effects != [] ==> inv.effects[0].GetObject?
    ensures |inv.effects| == 2 ==> inv.effects[1].PutObject?
    // The read is of the first record's object, at its decoded key.
    ensures inv.effects != [] ==>
              && Configured(target) && HasRecords(event)
              && Locate(event.records.value[0], io.unquote)
                 == Success(Location(inv.effects[0].bucket, inv.effects[0].key))
    // Anything written is the full projection of what was read, to the target
    // bucket at the derived key.
    ensures |inv.effects| == 2 ==>
              var source := Location(inv.effects[0].bucket, inv.effects[0].key);
              && Transform(source, io).Success?
              && inv.effects[1] == PutObject(target.value, TargetKey(source.key),
                                             EncodeAll(Transform(source, io).value), JsonContentType)
    // Conversely, a transformation that succeeds is always written.
    ensures Configured(target) && HasRecords(event)
            && Locate(event.records.value[0], io.unquote).Success?
            && Transform(Locate(event.records.value[0], io.unquote).value, io).Success?
            ==> |inv.effects| == 2
    // A 200 reports the key that was written, and only after the write succeeded.
    ensures inv.outcome.Returned? && inv.outcome.statusCode == 200 ==>
              && |inv.effects| == 2
              && inv.outcome.body == Report(SuccessMessage, inv.effects[1].key)
              && io.putObject(inv.effects[1].bucket, inv.effects[1].key, inv.effects[1].content).None?
    // Conversely, when every step and the write succeed, the response is the
    // 200 report of the derived key.
    ensures Configured(target) && HasRecords(event) ==>
              var located := Locate(event.records.value[0], io.unquote);
              located.Success? && Transform(located.value, io).Success?
              && io.putObject(target.value, TargetKey(located.value.key),
                              EncodeAll(Transform(located.value, io).value)).None?
              ==> inv.outcome == Returned(200, Report(SuccessMessage, TargetKey(located.value.key)))
  {
    if !Configured(target) then
      Invocation(Raised(ConfigError), [])
    else if !HasRecords(event) then
      Invocation(Returned(400, Text(NoRecordsBody)), [])
    else
      Process(target.value, event.records.value[0], io)
  }

  /**
   The body of the handler's `try` once the checks have passed: locate the
   source from the first record, transform it, write the result.
   */
  function Process(target: string, record: NotificationRecord, io: Services): Invocation
  {
    match Locate(record, io.unquote)
    case Failure(e) => Invocation(Raised(e), [])
    case Success(source) =>
      var read := GetObject(source.bucket, source.key);
      match Transform(source, io)
      case Failure(e) => Invocation(Raised(e), [read])
      case Success(summaries) =>
        var key := TargetKey(source.key);
        var content := EncodeAll(summaries);
        var write := PutObject(target, key, content, JsonContentType);
        match io.putObject(target, key, content)
        case Some(e) => Invocation(Raised(e), [read, write])
        case None => Invocation(Returned(200, Report(SuccessMessage, key)), [read, write])
  }

  /**
   Once configuration and records are in place, an exception raised while
   locating, reading, parsing or projecting ends the invocation unchanged,
   and nothing is written.
   */
  lemma FailuresReraised(target: Option<string>, event: Event, io: Services)
    requires Configured(target) && HasRecords(event)
    ensures var located := Locate(event.records.value[0], io.unquote);
            located.Failure? ==> Handle(target, event, io) == Invocation(Raised(located.error), [])
    ensures var located := Locate(event.records.value[0], io.unquote);
            located.Success? && Transform(located.value, io).Failure? ==>
              Handle(target, event, io)
              == Invocation(Raised(Transform(located.value, io).error),
                            [GetObject(located.value.bucket, located.value.key)])
  {
  }

  /** A source object that does not exist: NoSuchKey is raised after the one read. */
  lemma MissingSourceRaises(target: Option<string>, event: Event, io: Services, source: Location)
    requires Configured(target) && HasRecords(event)
    requires Locate(event.records.value[0], io.unquote) == Success(source)
    requires io.getObject(source.bucket, source.key) == Failure(NoSuchKey(source.bucket, source.key))
    ensures Handle(target, event, io)
            == Invocation(Raised(NoSuchKey(source.bucket, source.key)), [GetObject(source.bucket, source.key)])
  {
  }

  /** Source text that is not JSON: the decode error is raised after the one read. */
  lemma MalformedSourceRaises(target: Option<string>, event: Event, io: Services, source: Location, message: string)
    requires Configured(target) && HasRecords(event)
    requires Locate(event.records.value[0], io.unquote) == Success(source)
    requires io.getObject(source.bucket, source.key).Success?
    requires io.loads(io.getObject(source.bucket, source.key).value) == Failure(JsonDecodeError(message))
    ensures Handle(target, event, io)
            == Invocation(Raised(JsonDecodeError(message)), [GetObject(source.bucket, source.key)])
  {
  }

  /** A failed write is raised unchanged; the response is never a success. */
  lemma WriteFailureRaises(target: Option<string>, event: Event, io: Services, source: Location, e: Error)
    requires Configured(target) && HasRecords(event)
    requires Locate(event.records.value[0], io.unquote) == Success(source)
    requires Transform(source, io).Success?
    requires io.putObject(target.value, TargetKey(source.key), EncodeAll(Transform(source, io).value)) == Some(e)
    ensures Handle(target, event, io).outcome == Raised(e)
    ensures |Handle(target, event, io).effects| == 2
  {
  }

  /** Only the first notification record is read; the others change nothing. */
  lemma OnlyFirstRecordRead(target: Option<string>, first: NotificationRecord,
                            rest: seq<NotificationRecord>, io: Services)
    ensures Handle(target, Event(Some([first] + rest)), io) == Handle(target, Event(Some([first])), io)
  {
    assert ([first] + rest)[0] == first;
  }

  /**
   What an invocation writes reads back as the projection it computed:
   projecting the written array gives the same records.
   */
  lemma WrittenContentReadsBack(target: Option<string>, event: Event, io: Services, source: Location)
    requires Configured(target) && HasRecords(event)
    requires Locate(event.records.value[0], io.unquote) == Success(source)
    requires Transform(source, io).Success?
    ensures |Handle(target, event, io).effects| == 2
    ensures Project(Handle(target, event, io).effects[1].content) == Transform(source, io)
  {
    ReprojectEncoded(Transform(source, io).value);
  }

  /**
   Two invocations that write use the same target key exactly when their
   decoded source keys have the same file name.
   */
  lemma WritesCollideOnlyOnSameName(target: Option<string>, e1: Event, e2: Event, io1: Services, io2: Services,
                                    s1: Location, s2: Location)
    requires Configured(target) && HasRecords(e1) && HasRecords(e2)
    requires Locate(e1.records.value[0], io1.unquote) == Success(s1) && Transform(s1, io1).Success?
    requires Locate(e2.records.value[0], io2.unquote) == Success(s2) && Transform(s2, io2).Success?
    ensures |Handle(target, e1, io1).effects| == 2 && |Handle(target, e2, io2).effects| == 2
    ensures Handle(target, e1, io1).effects[1].key == Handle(target, e2, io2).effects[1].key
            <==> Basename(s1.key) == Basename(s2.key)
  {
    var inv1 := Handle(target, e1, io1);
    var inv2 := Handle(target, e2, io2);
    assert inv1 == Process(target.value, e1.records.value[0], io1);
    assert inv2 == Process(target.value, e2.records.value[0], io2);
    assert |inv1.effects| == 2 && inv1.effects[1].key == TargetKey(s1.key);
    assert |inv2.effects| == 2 && inv2.effects[1].key == TargetKey(s2.key);
    TargetKeyInjective(s1.key, s2.key);
  }
}
