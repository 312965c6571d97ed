/** The trip mapper of `POST /postTrips` (index.js:236-248): one posted
    element becomes a trip summary record (schema at index.js:126-138). */
module Trips {
  import opened Wrappers
  import opened Json

  /** A trip summary as handed to the store. */
  datatype Trip = Trip(
    receivedId: Option<Value>,
    receivedDate: Timestamp,
    obdVin: Option<Value>,
    startUTCTicks: Option<Value>,
    endUTCTicks: Option<Value>,
    totalMinutes: Option<Value>,
    manualStartOdometer: Option<Value>,
    estimatedEndOdometer: Option<Value>,
    estimatedDistance: Option<Value>,
    averageSpeed: Option<Value>)

  /** The columns of the trip schema. */
  datatype Column =
    | ReceivedId | ReceivedDate | ObdVin | StartUTCTicks | EndUTCTicks | TotalMinutes
    | ManualStartOdometer | EstimatedEndOdometer | EstimatedDistance | AverageSpeed

  /** The column's name in the schema. */
  function Name(c: Column): string {
    match c
    case ReceivedId => "receivedId"
    case ReceivedDate => "receivedDate"
    case ObdVin => "obdVin"
    case StartUTCTicks => "startUTCTicks"
    case EndUTCTicks => "endUTCTicks"
    case TotalMinutes => "totalMinutes"
    case ManualStartOdometer => "manualStartOdometer"
    case EstimatedEndOdometer => "estimatedEndOdometer"
    case EstimatedDistance => "estimatedDistance"
    case AverageSpeed => "averageSpeed"
  }

  /** The input member a column is filled from: `id` for `receivedId`, the
      column's own name otherwise. (`receivedDate` is never read.) */
  function Source(c: Column): string {
    if c == ReceivedId then "id" else Name(c)
  }

  /** The value a record holds in a column read from the input. */
  function Get(t: Trip, c: Column): Option<Value>
    requires c != ReceivedDate
  {
    match c
    case ReceivedId => t.receivedId
    case ObdVin => t.obdVin
    case StartUTCTicks => t.startUTCTicks
    case EndUTCTicks => t.endUTCTicks
    case TotalMinutes => t.totalMinutes
    case ManualStartOdometer => t.manualStartOdometer
    case EstimatedEndOdometer => t.estimatedEndOdometer
    case EstimatedDistance => t.estimatedDistance
    case AverageSpeed => t.averageSpeed
  }

  /** The trip record built from one posted element at server time `now`. */
  function ToTrip(received: Raw, now: Timestamp): Trip {
    Trip(
      receivedId := Field(received, "id"),
      receivedDate := now,
      obdVin := Field(received, "obdVin"),
      startUTCTicks := Field(received, "startUTCTicks"),
      endUTCTicks := Field(received, "endUTCTicks"),
      totalMinutes := Field(received, "totalMinutes"),
      manualStartOdometer := Field(received, "manualStartOdometer"),
      estimatedEndOdometer := Field(received, "estimatedEndOdometer"),
      estimatedDistance := Field(received, "estimatedDistance"),
      averageSpeed := Field(received, "averageSpeed"))
  }

  /** Every column other than `receivedDate` holds the input member it is
      named after (`id` for `receivedId`), absent when the input lacks it;
      `receivedDate` is the server time, whatever the input carries. */
  lemma CopiesSchema(received: Raw, now: Timestamp)
    ensures ToTrip(received, now).receivedDate == now
    ensures forall c: Column :: c != ReceivedDate ==> Get(ToTrip(received, now), c) == Field(received, Source(c))
  {
  }

  /** Two records are equal when they agree on `receivedDate` and on every
      column read from the input. */
  lemma Extensional(x: Trip, y: Trip)
    requires x.receivedDate == y.receivedDate
    requires forall c: Column :: c != ReceivedDate ==> Get(x, c) == Get(y, c)
    ensures x == y
  {
    assert Get(x, ReceivedId) == Get(y, ReceivedId);
    assert Get(x, ObdVin) == Get(y, ObdVin);
    assert Get(x, StartUTCTicks) == Get(y, StartUTCTicks);
    assert Get(x, EndUTCTicks) == Get(y, EndUTCTicks);
    assert Get(x, TotalMinutes) == Get(y, TotalMinutes);
    assert Get(x, ManualStartOdometer) == Get(y, ManualStartOdometer);
    assert Get(x, EstimatedEndOdometer) == Get(y, EstimatedEndOdometer);
    assert Get(x, EstimatedDistance) == Get(y, EstimatedDistance);
    assert Get(x, AverageSpeed) == Get(y, AverageSpeed);
  }

  /** The mapper reads no member other than the columns' sources: two
      elements that agree on those give the same record. */
  lemma ReadsOnlySources(a: Raw, b: Raw, now: Timestamp)
    requires forall c: Column :: c != ReceivedDate ==> Field(a, Source(c)) == Field(b, Source(c))
    ensures ToTrip(a, now) == ToTrip(b, now)
  {
    CopiesSchema(a, now);
    CopiesSchema(b, now);
    Extensional(ToTrip(a, now), ToTrip(b, now));
  }

  /** Mapping one element at two server times gives records that differ in
      `receivedDate` alone, so mapping it twice at one time gives equal
      records. */
  lemma TimeOnly(received: Raw, now1: Timestamp, now2: Timestamp)
    ensures ToTrip(received, now2) == ToTrip(received, now1).(receivedDate := now2)
  {
  }
}
