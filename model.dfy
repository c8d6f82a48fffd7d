/**
 * The record shapes of the gateway (model/models.go). They carry no behaviour;
 * the only test the gateway ever applies to a prediction result is "both values
 * are exactly zero", so the float64 fields are modelled as `real`.
 */
module Model {
  import opened Wrappers

  /** A 128-bit UUID; only its identity matters to the model. */
  type Uuid = nat

  /** The nil UUID that Go returns alongside an error. */
  const NilUuid: Uuid := 0

  /** Time instants and durations in nanoseconds, as time.Time / time.Duration hold them. */
  type Instant = int

  const NanosPerSecond: int := 1_000_000_000

  /** PredictionResult: the two values the ML service predicts. */
  datatype PredictionResult = PredictionResult(predictedPrice: real, predictedSales: real)

  /** The "not meaningful" placeholder result: both values exactly zero. */
  predicate IsZero(r: PredictionResult)
  {
    r.predictedPrice == 0.0 && r.predictedSales == 0.0
  }

  /**
   * PredictionRequest, the full feature vector. The string fields are kept by
   * name; the seventeen float64 features are kept in declaration order in
   * `numeric`.
   */
  datatype PredictionRequest = PredictionRequest(
    productName: string,
    brand: string,
    category: string,
    region: string,
    seller: string,
    numeric: seq<real>,
    isWeekend: bool,
    isHoliday: bool,
    dayOfWeek: int,
    month: int,
    quarter: int)

  /**
   * Go's zero value `PredictionRequest{}`, all seventeen features zero: the
   * request a minimal prediction's record carries.
   */
  const ZeroRequest: PredictionRequest :=
    PredictionRequest("", "", "", "", "",
      [0.0, 0.0, 0.0, 0.0, 0.0, 0.0, 0.0, 0.0, 0.0,
       0.0, 0.0, 0.0, 0.0, 0.0, 0.0, 0.0, 0.0],
      false, false, 0, 0, 0)

  /** PredictionRequestMinimal; every pointer field is an Option. */
  datatype PredictionRequestMinimal = PredictionRequestMinimal(
    productName: string,
    region: string,
    seller: string,
    predictionDate: Option<Instant>,
    price: Option<real>,
    originalPrice: Option<real>,
    stockLevel: Option<real>,
    customerRating: Option<real>,
    reviewCount: Option<real>,
    deliveryDays: Option<real>)

  /** PredictionHistory: one saved prediction. */
  datatype PredictionHistory = PredictionHistory(
    id: Uuid,
    userId: Uuid,
    request: PredictionRequest,
    result: PredictionResult,
    createdAt: Instant,
    endpointType: string,
    minimal: bool)

  /** A history entry is meaningful when its result is not the zero placeholder. */
  predicate Meaningful(p: PredictionHistory)
  {
    !IsZero(p.result)
  }

  /** UserStatistics: the answer to a statistics request. */
  datatype UserStatistics = UserStatistics(userId: Uuid, predictions: seq<PredictionHistory>)
}
