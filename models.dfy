/** The frozen records of the toolkit. Each Python dataclass with a range check in its
    constructor is a subset type over a plain datatype; the checked constructor is a
    function that reports the first failing check, in the order the source tests them.
    Datatype values are immutable, so no operation changes a record after construction. */
module Models {
  import opened Wrappers

  /** A point in time: hours (real-valued) since 2000-01-01T00:00 UTC. */
  type Instant = real

  /** The range check that rejected a record. */
  datatype RangeError =
    | RaOutOfRange
    | DecOutOfRange
    | LatitudeOutOfRange
    | LongitudeOutOfRange
    | AltitudeOutOfRange
    | AzimuthOutOfRange

  /** Outcome of a checked constructor: the record, or the ValueError it raises. */
  datatype Checked<+T> = Built(value: T) | Rejected(error: RangeError)

  datatype StarRecord = StarRecord(
    name: string,
    raHours: real,
    decDegrees: real,
    magnitude: real,
    spectralType: string,
    constellation: string)

  predicate ValidRa(raHours: real) { 0.0 <= raHours <= 24.0 }

  predicate ValidDec(decDegrees: real) { -90.0 <= decDegrees <= 90.0 }

  /** `StellarObject`: a star whose right ascension and declination are in range. */
  type StellarObject = s: StarRecord | ValidRa(s.raHours) && ValidDec(s.decDegrees)
    witness StarRecord("", 0.0, 0.0, 0.0, "", "")

  /** `StellarObject(...)` with its `__post_init__` check. */
  function NewStellarObject(
    name: string, raHours: real, decDegrees: real, magnitude: real,
    spectralType: string, constellation: string): (r: Checked<StellarObject>)
    ensures r.Built? <==> ValidRa(raHours) && ValidDec(decDegrees)
    ensures !ValidRa(raHours) ==> r == Rejected(RaOutOfRange)
    ensures ValidRa(raHours) && !ValidDec(decDegrees) ==> r == Rejected(DecOutOfRange)
    ensures r.Built? ==>
              && r.value.name == name && r.value.raHours == raHours
              && r.value.decDegrees == decDegrees && r.value.magnitude == magnitude
              && r.value.spectralType == spectralType && r.value.constellation == constellation
  {
    if !ValidRa(raHours) then Rejected(RaOutOfRange)
    else if !ValidDec(decDegrees) then Rejected(DecOutOfRange)
    else Built(StarRecord(name, raHours, decDegrees, magnitude, spectralType, constellation))
  }

  datatype LocationRecord = LocationRecord(
    latitude: real,
    longitude: real,
    name: string,
    timezoneOffset: real)

  predicate ValidLatitude(latitude: real) { -90.0 <= latitude <= 90.0 }

  predicate ValidLongitude(longitude: real) { -180.0 <= longitude <= 180.0 }

  /** `ObserverLocation`: a place on Earth with latitude and longitude in range. */
  type ObserverLocation = l: LocationRecord | ValidLatitude(l.latitude) && ValidLongitude(l.longitude)
    witness LocationRecord(0.0, 0.0, "", 0.0)

  /** `ObserverLocation(...)`; an absent timezone offset takes the default 0. */
  function NewObserverLocation(
    latitude: real, longitude: real, name: string, timezoneOffset: Option<real>): (r: Checked<ObserverLocation>)
    ensures r.Built? <==> ValidLatitude(latitude) && ValidLongitude(longitude)
    ensures !ValidLatitude(latitude) ==> r == Rejected(LatitudeOutOfRange)
    ensures ValidLatitude(latitude) && !ValidLongitude(longitude) ==> r == Rejected(LongitudeOutOfRange)
    ensures r.Built? ==>
              && r.value.latitude == latitude && r.value.longitude == longitude
              && r.value.name == name
    ensures r.Built? && timezoneOffset.None? ==> r.value.timezoneOffset == 0.0
    ensures r.Built? && timezoneOffset.Some? ==> r.value.timezoneOffset == timezoneOffset.value
  {
    var offset := if timezoneOffset.Some? then timezoneOffset.value else 0.0;
    if !ValidLatitude(latitude) then Rejected(LatitudeOutOfRange)
    else if !ValidLongitude(longitude) then Rejected(LongitudeOutOfRange)
    else Built(LocationRecord(latitude, longitude, name, offset))
  }

  datatype HorizontalRecord = HorizontalRecord(altitude: real, azimuth: real)

  predicate ValidAltitude(altitude: real) { 0.0 <= altitude <= 90.0 }

  predicate ValidAzimuth(azimuth: real) { 0.0 <= azimuth <= 360.0 }

  /** `HorizontalCoordinates`: altitude in [0, 90] and azimuth in [0, 360] degrees. */
  type HorizontalCoordinates = h: HorizontalRecord | ValidAltitude(h.altitude) && ValidAzimuth(h.azimuth)
    witness HorizontalRecord(0.0, 0.0)

  /** `HorizontalCoordinates(...)` with its `__post_init__` check. */
  function NewHorizontalCoordinates(altitude: real, azimuth: real): (r: Checked<HorizontalCoordinates>)
    ensures r.Built? <==> ValidAltitude(altitude) && ValidAzimuth(azimuth)
    ensures !ValidAltitude(altitude) ==> r == Rejected(AltitudeOutOfRange)
    ensures ValidAltitude(altitude) && !ValidAzimuth(azimuth) ==> r == Rejected(AzimuthOutOfRange)
    ensures r.Built? ==> r.value.altitude == altitude && r.value.azimuth == azimuth
  {
    if !ValidAltitude(altitude) then Rejected(AltitudeOutOfRange)
    else if !ValidAzimuth(azimuth) then Rejected(AzimuthOutOfRange)
    else Built(HorizontalRecord(altitude, azimuth))
  }

  /** `VisibilityInfo`: unchecked; the three instants are optional. */
  datatype VisibilityInfo = VisibilityInfo(
    objectName: string,
    isVisible: bool,
    altitude: real,
    azimuth: real,
    riseTime: Option<Instant>,
    setTime: Option<Instant>,
    maxAltitudeTime: Option<Instant>)
}
