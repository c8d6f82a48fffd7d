/**
 * The prediction and statistics operations of the gateway that keeps
 * prediction history (service/service.go): Predict and PredictMinimal forward
 * to the ML service, build a history record and, for a non-zero result only,
 * issue one durable write and one cache write; GetUserStatistics reads the
 * cache first and falls back to the durable store.
 *
 * The ML service's HTTP exchange and the durable store's query are oracles.
 * The two writes run on goroutines in the source; here they are appended to a
 * log of issued writes, and whether or when they complete is not modelled.
 */
module PredictionService {
  import opened Wrappers
  import opened Model
  import opened PredictionCache

  const StatusOK: int := 200

  /** The errors a service call surfaces to its caller. */
  datatype ServiceError =
    | TransportError(reason: string)   // the POST or reading its body failed
    | BackendError(message: string)    // non-OK status with a decodable {"error": ...} body
    | BackendStatus(code: int)         // non-OK status with any other body: "ml service error: <code>"
    | DecodeError(reason: string)      // OK status, but the body is not a PredictionResult
    | StoreError(reason: string)       // the durable store's query failed

  /** What the HTTP exchange with the ML service yielded, body already decoded where it decodes. */
  datatype MlReply =
    | Unreachable(reason: string)
    | Reply(status: int, errorBody: Option<string>, result: Option<PredictionResult>)

  /** The request a prediction was made for: the full or the minimal endpoint's. */
  datatype Endpoint = Full(request: PredictionRequest) | Minimal(minimalRequest: PredictionRequestMinimal)

  /** A write issued on a goroutine: to the durable store, or to the history cache. */
  datatype Write =
    | DbWrite(userId: Uuid, endpoint: Endpoint, result: PredictionResult, minimal: bool)
    | CacheWrite(userId: Uuid, prediction: PredictionHistory)

  /** The result a write would persist. */
  function WrittenResult(w: Write): PredictionResult
  {
    match w
    case DbWrite(_, _, result, _) => result
    case CacheWrite(_, p) => p.result
  }

  /** The decoded backend answer, or the error the service returns for it. */
  function DecodeReply(reply: MlReply): (r: Result<PredictionResult, ServiceError>)
    ensures r.Ok? <==> reply.Reply? && reply.status == StatusOK && reply.result.Some?
    ensures r.Ok? ==> r.value == reply.result.value
    ensures reply.Unreachable? ==> r == Err(TransportError(reply.reason))
    ensures reply.Reply? && reply.status != StatusOK ==>
              r == (if reply.errorBody.Some? then Err(BackendError(reply.errorBody.value)) else Err(BackendStatus(reply.status)))
    ensures reply.Reply? && reply.status == StatusOK && reply.result.None? ==> r.Err? && r.error.DecodeError?
  {
    match reply
    case Unreachable(reason) => Err(TransportError(reason))
    case Reply(status, errorBody, result) =>
      if status != StatusOK then
        match errorBody
        case Some(message) => Err(BackendError(message))
        case None => Err(BackendStatus(status))
      else
        match result
        case None => Err(DecodeError("response body is not a prediction result"))
        case Some(r) => Ok(r)
  }

  /** The history record built for a prediction; a minimal one carries the zero request. */
  function Record(userId: Uuid, endpoint: Endpoint, result: PredictionResult, id: Uuid, now: Instant): (r: PredictionHistory)
    ensures r.id == id && r.userId == userId && r.result == result && r.createdAt == now
    ensures r.minimal <==> endpoint.Minimal?
    ensures r.endpointType == (if endpoint.Minimal? then "predict/minimal" else "predict")
    ensures r.request == (if endpoint.Full? then endpoint.request else ZeroRequest)
    ensures Meaningful(r) <==> !IsZero(result)
  {
    match endpoint
    case Full(request) => PredictionHistory(id, userId, request, result, now, "predict", false)
    case Minimal(_) => PredictionHistory(id, userId, ZeroRequest, result, now, "predict/minimal", true)
  }

  /**
   * The specification of Predict and PredictMinimal: the value returned, and
   * the writes issued, for a reply of the ML service, the fresh record ID and
   * the clock.
   */
  function PredictOutcome(userId: Uuid, endpoint: Endpoint, reply: MlReply, id: Uuid, now: Instant)
    : (Result<PredictionResult, ServiceError>, seq<Write>)
  {
    match DecodeReply(reply)
    case Err(e) => (Err(e), [])
    case Ok(result) =>
      if IsZero(result) then (Ok(result), [])
      else (Ok(result), [DbWrite(userId, endpoint, result, endpoint.Minimal?),
                         CacheWrite(userId, Record(userId, endpoint, result, id, now))])
  }

  class Service {
    const cacheRepo: CacheRepository
    /** The writes issued so far, in the order their goroutines were started. */
    var issued: seq<Write>

    /** No zero result is ever sent to either store. */
    ghost predicate Valid()
      reads this
    {
      forall i :: 0 <= i < |issued| ==> !IsZero(WrittenResult(issued[i]))
    }

    constructor (cacheRepo: CacheRepository)
      ensures this.cacheRepo == cacheRepo && issued == [] && Valid()
    {
      this.cacheRepo := cacheRepo;
      issued := [];
    }

    /** The prediction path shared by Predict and PredictMinimal once the request is fixed. */
    method PredictWith(userId: Uuid, endpoint: Endpoint, reply: MlReply, id: Uuid, now: Instant)
        returns (r: Result<PredictionResult, ServiceError>)
      requires Valid()
      modifies this`issued
      ensures Valid()
      ensures r == PredictOutcome(userId, endpoint, reply, id, now).0
      ensures issued == old(issued) + PredictOutcome(userId, endpoint, reply, id, now).1
    {
      var decoded := DecodeReply(reply);
      if decoded.Err? {
        return Err(decoded.error);
      }
      var result := decoded.value;
      var prediction := Record(userId, endpoint, result, id, now);
      if !(result.predictedPrice == 0.0 && result.predictedSales == 0.0) {
        issued := issued + [DbWrite(userId, endpoint, result, endpoint.Minimal?)];
        issued := issued + [CacheWrite(userId, prediction)];
      }
      return Ok(result);
    }

    /** Predict: the full endpoint; the record has type "predict" and keeps the request. */
    method Predict(userId: Uuid, request: PredictionRequest, reply: MlReply, id: Uuid, now: Instant)
        returns (r: Result<PredictionResult, ServiceError>)
      requires Valid()
      modifies this`issued
      ensures Valid()
      ensures r == PredictOutcome(userId, Full(request), reply, id, now).0
      ensures issued == old(issued) + PredictOutcome(userId, Full(request), reply, id, now).1
    {
      r := PredictWith(userId, Full(request), reply, id, now);
    }

    /** PredictMinimal: the minimal endpoint; the record has type "predict/minimal" and no request. */
    method PredictMinimal(userId: Uuid, request: PredictionRequestMinimal, reply: MlReply, id: Uuid, now: Instant)
        returns (r: Result<PredictionResult, ServiceError>)
      requires Valid()
      modifies this`issued
      ensures Valid()
      ensures r == PredictOutcome(userId, Minimal(request), reply, id, now).0
      ensures issued == old(issued) + PredictOutcome(userId, Minimal(request), reply, id, now).1
    {
      r := PredictWith(userId, Minimal(request), reply, id, now);
    }

    /**
     * GetUserStatistics: a user the cache has a key for is answered from the
     * cache, even with an empty list, without querying the store; otherwise
     * from the store, whose failure is the error returned. The statistics
     * always carry the requested user.
     */
    method GetUserStatistics(userId: Uuid, queryDb: Uuid -> Result<seq<PredictionHistory>, string>)
        returns (r: Result<UserStatistics, ServiceError>, dbQueried: bool)
      ensures dbQueried <==> userId !in cacheRepo.userCache
      ensures !dbQueried ==> r == Ok(UserStatistics(userId, NonZero(cacheRepo.userCache[userId])))
      ensures dbQueried && queryDb(userId).Ok? ==> r == Ok(UserStatistics(userId, queryDb(userId).value))
      ensures dbQueried && queryDb(userId).Err? ==> r == Err(StoreError(queryDb(userId).error))
      ensures r.Ok? ==> r.value.userId == userId
    {
      var predictions, found := cacheRepo.GetUserPredictions(userId);
      if found {
        return Ok(UserStatistics(userId, predictions)), false;
      }
      dbQueried := true;
      var rows := queryDb(userId);
      if rows.Err? {
        return Err(StoreError(rows.error)), dbQueried;
      }
      return Ok(UserStatistics(userId, rows.value)), dbQueried;
    }
  }

  /** Any failure before the result is decoded issues no write. */
  lemma FailureIssuesNothing(userId: Uuid, endpoint: Endpoint, reply: MlReply, id: Uuid, now: Instant)
    requires DecodeReply(reply).Err?
    ensures PredictOutcome(userId, endpoint, reply, id, now) == (Err(DecodeReply(reply).error), [])
  {
  }

  /** A non-OK status is always an error. */
  lemma NonOkStatusFails(status: int, errorBody: Option<string>, result: Option<PredictionResult>)
    requires status != StatusOK
    ensures DecodeReply(Reply(status, errorBody, result)).Err?
    ensures errorBody.None? ==> DecodeReply(Reply(status, errorBody, result)) == Err(BackendStatus(status))
  {
  }

  /**
   * The caller gets the decoded result whether or not writes were issued, and
   * writes are issued exactly when that result is not zero.
   */
  lemma ResultIndependentOfWrites(userId: Uuid, endpoint: Endpoint, reply: MlReply, id: Uuid, now: Instant)
    ensures PredictOutcome(userId, endpoint, reply, id, now).0 == DecodeReply(reply)
    ensures PredictOutcome(userId, endpoint, reply, id, now).1 != [] <==> DecodeReply(reply).Ok? && !IsZero(DecodeReply(reply).value)
  {
  }

  /**
   * A non-zero result issues exactly one durable write and one cache write;
   * the cache record belongs to the caller and records the endpoint used.
   */
  lemma NonZeroIssuesOneOfEach(userId: Uuid, endpoint: Endpoint, reply: MlReply, id: Uuid, now: Instant)
    requires DecodeReply(reply).Ok? && !IsZero(DecodeReply(reply).value)
    ensures var writes := PredictOutcome(userId, endpoint, reply, id, now).1;
      && |writes| == 2
      && writes[0] == DbWrite(userId, endpoint, DecodeReply(reply).value, endpoint.Minimal?)
      && writes[1].CacheWrite? && writes[1].userId == userId
      && writes[1].prediction.userId == userId && writes[1].prediction.id == id
      && writes[1].prediction.result == DecodeReply(reply).value
      && writes[1].prediction.minimal == endpoint.Minimal?
      && writes[1].prediction.endpointType == (if endpoint.Minimal? then "predict/minimal" else "predict")
      && writes[1].prediction.request == (if endpoint.Minimal? then ZeroRequest else endpoint.request)
  {
  }

  /** The per-user lists once the cache writes among `writes` have completed, in order. */
  function ApplyCacheWrites(index: UserIndex, writes: seq<Write>): UserIndex
    decreases |writes|
  {
    if writes == [] then index
    else
      var next := if writes[0].CacheWrite? then Saved(index, writes[0].userId, writes[0].prediction) else index;
      ApplyCacheWrites(next, writes[1..])
  }

  /**
   * Once its cache write completes, a non-zero prediction is the newest entry
   * the caller's history lookup answers.
   */
  lemma PredictionReachesHistory(index: UserIndex, userId: Uuid, endpoint: Endpoint, reply: MlReply, id: Uuid, now: Instant)
    requires DecodeReply(reply).Ok? && !IsZero(DecodeReply(reply).value)
    ensures var after := ApplyCacheWrites(index, PredictOutcome(userId, endpoint, reply, id, now).1);
      Lookup(after, userId) == ([Record(userId, endpoint, DecodeReply(reply).value, id, now)] + Lookup(index, userId).0, true)
  {
    var writes := PredictOutcome(userId, endpoint, reply, id, now).1;
    var rec := Record(userId, endpoint, DecodeReply(reply).value, id, now);
    assert writes[0].DbWrite? && writes[1] == CacheWrite(userId, rec);
    assert writes[1..][1..] == [];
    calc {
      ApplyCacheWrites(index, writes);
      ApplyCacheWrites(index, writes[1..]);
      ApplyCacheWrites(Saved(index, userId, rec), writes[1..][1..]);
      Saved(index, userId, rec);
    }
    SaveThenLookup(index, userId, rec);
  }

  /**
   * A user with no history in the cache makes a prediction with result
   * (19.99, 42.0) and then one with result (0, 0): once the issued cache writes
   * complete, the history lookup answers exactly the first record.
   */
  lemma HistoryScenario(index: UserIndex, userId: Uuid, request: PredictionRequest, id1: Uuid, id2: Uuid, t1: Instant, t2: Instant)
    requires userId !in index
    ensures var first := PredictOutcome(userId, Full(request), Reply(StatusOK, None, Some(PredictionResult(19.99, 42.0))), id1, t1);
            var second := PredictOutcome(userId, Full(request), Reply(StatusOK, None, Some(PredictionResult(0.0, 0.0))), id2, t2);
            var rec := Record(userId, Full(request), PredictionResult(19.99, 42.0), id1, t1);
            && second.1 == []
            && Lookup(ApplyCacheWrites(index, first.1 + second.1), userId) == ([rec], true)
  {
    var reply := Reply(StatusOK, None, Some(PredictionResult(19.99, 42.0)));
    var first := PredictOutcome(userId, Full(request), reply, id1, t1);
    var second := PredictOutcome(userId, Full(request), Reply(StatusOK, None, Some(PredictionResult(0.0, 0.0))), id2, t2);
    assert second.1 == [];
    assert first.1 + second.1 == first.1;
    PredictionReachesHistory(index, userId, Full(request), reply, id1, t1);
    var rec := Record(userId, Full(request), PredictionResult(19.99, 42.0), id1, t1);
    assert [rec] + Lookup(index, userId).0 == [rec];
  }
}
