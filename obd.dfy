/** The OBD mapper of `POST /postObd` (index.js:282-309): one posted
    element becomes a sensor reading record (schema at index.js:95-122). */
module ObdRecords {
  import opened Wrappers
  import opened Json

  /** An OBD sensor reading as handed to the store. */
  datatype Obd = Obd(
    receivedId: Option<Value>,
    receivedDate: Timestamp,
    obdVin: Option<Value>,
    recordedTimestamp: Option<Value>,
    manualOdometer: Option<Value>,
    obdSpeed: Option<Value>,
    obdRpm: Option<Value>,
    obdThrotlePosition: Option<Value>,
    obdEngineLoad: Option<Value>,
    obdCoolantTemp: Option<Value>,
    obdOilTemp: Option<Value>,
    gpsLatitude: Option<Value>,
    gpsLongitude: Option<Value>,
    gpsAltitude: Option<Value>,
    gpsSpeed: Option<Value>,
    gpsBearing: Option<Value>,
    gpsAccuracy: Option<Value>,
    orientDir: Option<Value>,
    accelerationX: Option<Value>,
    accelerationY: Option<Value>,
    accelerationZ: Option<Value>,
    accelerationTotal: Option<Value>)

  /** The columns of the OBD schema. */
  datatype Column =
    | ReceivedId | ReceivedDate | ObdVin | RecordedTimestamp | ManualOdometer | ObdSpeed
    | ObdRpm | ObdThrotlePosition | ObdEngineLoad | ObdCoolantTemp | ObdOilTemp
    | GpsLatitude | GpsLongitude | GpsAltitude | GpsSpeed | GpsBearing | GpsAccuracy | OrientDir
    | AccelerationX | AccelerationY | AccelerationZ | AccelerationTotal

  /** The column's name in the schema. */
  function Name(c: Column): string {
    match c
    case ReceivedId => "receivedId"
    case ReceivedDate => "receivedDate"
    case ObdVin => "obdVin"
    case RecordedTimestamp => "recordedTimestamp"
    case ManualOdometer => "manualOdometer"
    case ObdSpeed => "obdSpeed"
    case ObdRpm => "obdRpm"
    case ObdThrotlePosition => "obdThrotlePosition"
    case ObdEngineLoad => "obdEngineLoad"
    case ObdCoolantTemp => "obdCoolantTemp"
    case ObdOilTemp => "obdOilTemp"
    case GpsLatitude => "gpsLatitude"
    case GpsLongitude => "gpsLongitude"
    case GpsAltitude => "gpsAltitude"
    case GpsSpeed => "gpsSpeed"
    case GpsBearing => "gpsBearing"
    case GpsAccuracy => "gpsAccuracy"
    case OrientDir => "orientDir"
    case AccelerationX => "accelerationX"
    case AccelerationY => "accelerationY"
    case AccelerationZ => "accelerationZ"
    case AccelerationTotal => "accelerationTotal"
  }

  /** The input member a column is filled from: `id` for `receivedId`,
      `UTCTicks` for `recordedTimestamp`, the column's own name otherwise.
      (`receivedDate` is never read.) */
  function Source(c: Column): string {
    if c == ReceivedId then "id"
    else if c == RecordedTimestamp then "UTCTicks"
    else Name(c)
  }

  /** The value a record holds in a column read from the input. */
  function Get(r: Obd, c: Column): Option<Value>
    requires c != ReceivedDate
  {
    match c
    case ReceivedId => r.receivedId
    case ObdVin => r.obdVin
    case RecordedTimestamp => r.recordedTimestamp
    case ManualOdometer => r.manualOdometer
    case ObdSpeed => r.obdSpeed
    case ObdRpm => r.obdRpm
    case ObdThrotlePosition => r.obdThrotlePosition
    case ObdEngineLoad => r.obdEngineLoad
    case ObdCoolantTemp => r.obdCoolantTemp
    case ObdOilTemp => r.obdOilTemp
    case GpsLatitude => r.gpsLatitude
    case GpsLongitude => r.gpsLongitude
    case GpsAltitude => r.gpsAltitude
    case GpsSpeed => r.gpsSpeed
    case GpsBearing => r.gpsBearing
    case GpsAccuracy => r.gpsAccuracy
    case OrientDir => r.orientDir
    case AccelerationX => r.accelerationX
    case AccelerationY => r.accelerationY
    case AccelerationZ => r.accelerationZ
    case AccelerationTotal => r.accelerationTotal
  }

  /** The OBD record built from one posted element at server time `now`. */
  function ToObd(received: Raw, now: Timestamp): Obd {
    Obd(
      receivedId := Field(received, "id"),
      obdVin := Field(received, "obdVin"),
      receivedDate := now,
      recordedTimestamp := Field(received, "UTCTicks"),
      manualOdometer := Field(received, "manualOdometer"),
      obdSpeed := Field(received, "obdSpeed"),
      obdRpm := Field(received, "obdRpm"),
      obdThrotlePosition := Field(received, "obdThrotlePosition"),
      obdEngineLoad := Field(received, "obdEngineLoad"),
      obdCoolantTemp := Field(received, "obdCoolantTemp"),
      obdOilTemp := Field(received, "obdOilTemp"),
      gpsLatitude := Field(received, "gpsLatitude"),
      gpsLongitude := Field(received, "gpsLongitude"),
      gpsAltitude := Field(received, "gpsAltitude"),
      gpsSpeed := Field(received, "gpsSpeed"),
      gpsBearing := Field(received, "gpsBearing"),
      gpsAccuracy := Field(received, "gpsAccuracy"),
      orientDir := Field(received, "orientDir"),
      accelerationX := Field(received, "accelerationX"),
      accelerationY := Field(received, "accelerationY"),
      accelerationZ := Field(received, "accelerationZ"),
      accelerationTotal := Field(received, "accelerationTotal"))
  }

  /** Every column other than `receivedDate` holds the input member it is
      read from (the same name, except `id` and `UTCTicks`), absent when the
      input lacks it; `receivedDate` is the server time, whatever the input
      carries. */
  lemma CopiesSchema(received: Raw, now: Timestamp)
    ensures ToObd(received, now).receivedDate == now
    ensures forall c: Column :: c != ReceivedDate ==> Get(ToObd(received, now), c) == Field(received, Source(c))
  {
  }

  /** Two records are equal when they agree on `receivedDate` and on every
      column read from the input. */
  lemma Extensional(x: Obd, y: Obd)
    requires x.receivedDate == y.receivedDate
    requires forall c: Column :: c != ReceivedDate ==> Get(x, c) == Get(y, c)
    ensures x == y
  {
    assert Get(x, ReceivedId) == Get(y, ReceivedId);
    assert Get(x, ObdVin) == Get(y, ObdVin);
    assert Get(x, RecordedTimestamp) == Get(y, RecordedTimestamp);
    assert Get(x, ManualOdometer) == Get(y, ManualOdometer);
    assert Get(x, ObdSpeed) == Get(y, ObdSpeed);
    assert Get(x, ObdRpm) == Get(y, ObdRpm);
    assert Get(x, ObdThrotlePosition) == Get(y, ObdThrotlePosition);
    assert Get(x, ObdEngineLoad) == Get(y, ObdEngineLoad);
    assert Get(x, ObdCoolantTemp) == Get(y, ObdCoolantTemp);
    assert Get(x, ObdOilTemp) == Get(y, ObdOilTemp);
    assert Get(x, GpsLatitude) == Get(y, GpsLatitude);
    assert Get(x, GpsLongitude) == Get(y, GpsLongitude);
    assert Get(x, GpsAltitude) == Get(y, GpsAltitude);
    assert Get(x, GpsSpeed) == Get(y, GpsSpeed);
    assert Get(x, GpsBearing) == Get(y, GpsBearing);
    assert Get(x, GpsAccuracy) == Get(y, GpsAccuracy);
    assert Get(x, OrientDir) == Get(y, OrientDir);
    assert Get(x, AccelerationX) == Get(y, AccelerationX);
    assert Get(x, AccelerationY) == Get(y, AccelerationY);
    assert Get(x, AccelerationZ) == Get(y, AccelerationZ);
    assert Get(x, AccelerationTotal) == Get(y, AccelerationTotal);
  }

  /** The mapper reads no member other than the columns' sources: two
      elements that agree on those give the same record. */
  lemma ReadsOnlySources(a: Raw, b: Raw, now: Timestamp)
    requires forall c: Column :: c != ReceivedDate ==> Field(a, Source(c)) == Field(b, Source(c))
    ensures ToObd(a, now) == ToObd(b, now)
  {
    CopiesSchema(a, now);
    CopiesSchema(b, now);
    Extensional(ToObd(a, now), ToObd(b, now));
  }

  /** Mapping one element at two server times gives records that differ in
      `receivedDate` alone, so mapping it twice at one time gives equal
      records. */
  lemma TimeOnly(received: Raw, now1: Timestamp, now2: Timestamp)
    ensures ToObd(received, now2) == ToObd(received, now1).(receivedDate := now2)
  {
  }
}
