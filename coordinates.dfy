/** Time scales and the equatorial-to-horizontal transform: Julian Day from a calendar date
    (Meeus, Astronomical Algorithms, chapter 7), local sidereal time from a linear GMST model
    referenced to J2000.0, and altitude/azimuth from right ascension and declination. */
module Coordinates {
  import opened Angles
  import opened Models

  /** `hours_to_degrees`: 15 degrees per hour of right ascension. */
  function HoursToDegrees(hours: real): real {
    hours * 15.0
  }

  /** `degrees_to_hours`. */
  function DegreesToHours(degrees: real): real {
    degrees / 15.0
  }

  /** The two conversions are inverse to each other, with exactly 15 degrees per hour. */
  lemma HoursDegreesRoundTrip(hours: real, degrees: real)
    ensures DegreesToHours(HoursToDegrees(hours)) == hours
    ensures HoursToDegrees(DegreesToHours(degrees)) == degrees
    ensures HoursToDegrees(1.0) == 15.0
  {
  }

  // ---------------------------------------------------------------------------------------
  // Calendar dates and the Julian Day

  /** A naive (UTC) `datetime`, to whole seconds; the source never reads the microseconds. */
  datatype DateTime = DateTime(year: int, month: int, day: int, hour: int, minute: int, second: int)

  predicate IsLeapYear(year: int) {
    year % 4 == 0 && (year % 100 != 0 || year % 400 == 0)
  }

  function DaysInMonth(year: int, month: int): int
    requires 1 <= month <= 12
  {
    if month == 2 then (if IsLeapYear(year) then 29 else 28)
    else if month == 4 || month == 6 || month == 9 || month == 11 then 30
    else 31
  }

  /** The values Python's `datetime` accepts. */
  predicate ValidDateTime(dt: DateTime) {
    && 1 <= dt.year <= 9999
    && 1 <= dt.month <= 12
    && 1 <= dt.day <= DaysInMonth(dt.year, dt.month)
    && 0 <= dt.hour < 24
    && 0 <= dt.minute < 60
    && 0 <= dt.second < 60
  }

  type UtcDateTime = dt: DateTime | ValidDateTime(dt) witness DateTime(2000, 1, 1, 0, 0, 0)

  /** Python's `int(x)` on a float: truncation toward zero. */
  function Trunc(x: real): (i: int)
    ensures Abs(i as real) <= Abs(x) < Abs(i as real) + 1.0
    ensures x >= 0.0 ==> i >= 0
    ensures x <= 0.0 ==> i <= 0
  {
    if x >= 0.0 then x.Floor else -((-x).Floor)
  }

  /** January and February count as months 13 and 14 of the previous year. The shift keeps the
      absolute month count and lands in [3, 14]. */
  function ShiftedYearMonth(year: int, month: int): (ym: (int, int))
    requires 1 <= month <= 12
    ensures 3 <= ym.1 <= 14
    ensures ym.0 * 12 + ym.1 == year * 12 + month
  {
    if month <= 2 then (year - 1, month + 12) else (year, month)
  }

  /** The Gregorian correction b = 2 - a + a // 4 with a = year // 100. Dafny's `/` on int with a
      positive divisor is floor division, as Python's `//`. */
  function GregorianCorrection(year: int): int {
    var a := year / 100;
    2 - a + a / 4
  }

  /** The time of day as a fraction of hours. */
  function TimeOfDay(dt: UtcDateTime): (hours: real)
    ensures 0.0 <= hours < 24.0
  {
    dt.hour as real + dt.minute as real / 60.0 + dt.second as real / 3600.0
  }

  /** `calculate_julian_day`. */
  function JulianDay(dt: UtcDateTime): real {
    var (y, m) := ShiftedYearMonth(dt.year, dt.month);
    var b := GregorianCorrection(y);
    (Trunc(365.25 * ((y + 4716) as real)) + Trunc(30.6001 * ((m + 1) as real)) + dt.day + b) as real
      - 1524.5 + TimeOfDay(dt) / 24.0
  }

  /** The integer day count inside the Julian Day, written with integer arithmetic only. */
  function DayCount(dt: UtcDateTime): int {
    var (y, m) := ShiftedYearMonth(dt.year, dt.month);
    (1461 * (y + 4716)) / 4 + (306001 * (m + 1)) / 10000 + dt.day + GregorianCorrection(y)
  }

  lemma FloorOfRatio(k: int, d: int)
    requires k >= 0 && d > 0
    ensures ((k as real) / (d as real)).Floor == k / d
  {
    var q, r := k / d, k % d;
    assert k == q * d + r;
    var x := (k as real) / (d as real);
    assert x == (q as real) + (r as real) / (d as real);
    assert 0.0 <= (r as real) / (d as real) < 1.0;
  }

  /** The two truncated products of the Julian Day are exact integer quotients. */
  lemma JulianDayIntegerPart(dt: UtcDateTime)
    ensures JulianDay(dt) == DayCount(dt) as real - 1524.5 + TimeOfDay(dt) / 24.0
  {
    var (y, m) := ShiftedYearMonth(dt.year, dt.month);
    assert 365.25 * ((y + 4716) as real) == ((1461 * (y + 4716)) as real) / 4.0;
    FloorOfRatio(1461 * (y + 4716), 4);
    assert 30.6001 * ((m + 1) as real) == ((306001 * (m + 1)) as real) / 10000.0;
    FloorOfRatio(306001 * (m + 1), 10000);
  }

  /** The Julian Day of 2000-01-01T00:00 UTC, the origin of the model's instants. */
  const EpochJulianDay: real := 2451544.5

  /** J2000.0, the reference of the sidereal time model: 2000-01-01T12:00 UTC. */
  const J2000: real := 2451545.0

  lemma JulianDayEpochs()
    ensures JulianDay(DateTime(2000, 1, 1, 0, 0, 0)) == EpochJulianDay
    ensures JulianDay(DateTime(2000, 1, 1, 12, 0, 0)) == J2000
  {
    JulianDayIntegerPart(DateTime(2000, 1, 1, 0, 0, 0));
    JulianDayIntegerPart(DateTime(2000, 1, 1, 12, 0, 0));
  }

  /** The Julian Day at an instant (hours since the epoch). */
  function JulianDayAt(t: Instant): real {
    EpochJulianDay + t / 24.0
  }

  /** The instant cut down to its whole second. `calculate_julian_day` reads the hour, minute
      and second of a `datetime` and never its microseconds. */
  function WholeSecond(t: Instant): (s: Instant)
    ensures s <= t < s + 1.0 / 3600.0
    ensures IsWhole(s * 3600.0)
  {
    var k := (t * 3600.0).Floor;
    assert (k as real / 3600.0) * 3600.0 == k as real;
    k as real / 3600.0
  }

  /** The Julian Day `calculate_julian_day` computes for the `datetime` at instant t: that of
      t's whole second. */
  function SourceJulianDayAt(t: Instant): real {
    JulianDayAt(WholeSecond(t))
  }

  /** A calendar time lies on a whole second, so the truncation leaves its instant unchanged and
      the source's Julian Day there is the calendar time's Julian Day. */
  lemma SourceJulianDayOfCalendarTime(dt: UtcDateTime)
    ensures WholeSecond(InstantOf(dt)) == InstantOf(dt)
    ensures SourceJulianDayAt(InstantOf(dt)) == JulianDay(dt)
  {
    JulianDayIntegerPart(dt);
    var d := DayCount(dt) - 2453069;
    var n := d * 86400 + dt.hour * 3600 + dt.minute * 60 + dt.second;
    var t := InstantOf(dt);
    assert t == (d as real) * 24.0 + TimeOfDay(dt);
    assert t * 3600.0 == n as real;
    assert (t * 3600.0).Floor == n;
  }

  /** The instant of a calendar time: the point of the instant scale with the same Julian Day. */
  function InstantOf(dt: UtcDateTime): (t: Instant)
    ensures JulianDayAt(t) == JulianDay(dt)
  {
    (JulianDay(dt) - EpochJulianDay) * 24.0
  }

  /** `date.replace(hour=0, minute=0, second=0, microsecond=0)` on the instant scale. */
  function Midnight(t: Instant): (m: Instant)
    ensures m <= t < m + 24.0
    ensures IsWhole(m / 24.0)
  {
    var k := (t / 24.0).Floor;
    assert (24.0 * (k as real)) / 24.0 == k as real;
    24.0 * (k as real)
  }

  function StartOfDay(dt: UtcDateTime): UtcDateTime {
    DateTime(dt.year, dt.month, dt.day, 0, 0, 0)
  }

  /** Flooring an instant to whole days since the epoch is the same as setting the calendar
      time of day to 00:00:00, so Midnight is the source's `replace(hour=0, ...)`. */
  lemma MidnightOfCalendarTime(dt: UtcDateTime)
    ensures Midnight(InstantOf(dt)) == InstantOf(StartOfDay(dt))
  {
    var s := StartOfDay(dt);
    JulianDayIntegerPart(dt);
    JulianDayIntegerPart(s);
    var n := DayCount(dt) - 2453069;
    assert DayCount(s) == DayCount(dt);
    var tod := TimeOfDay(dt);
    assert InstantOf(dt) == 24.0 * (n as real) + tod;
    assert InstantOf(s) == 24.0 * (n as real);
    assert InstantOf(dt) / 24.0 == (n as real) + tod / 24.0;
    assert (InstantOf(dt) / 24.0).Floor == n;
  }

  // ---------------------------------------------------------------------------------------
  // Sidereal time

  /** GMST in hours before wrapping, linear in days since J2000.0. */
  function GreenwichSiderealHours(jd: real): real {
    18.697374558 + 24.06570982441908 * (jd - J2000)
  }

  /** `x % 24.0` followed by the source's `if x < 0: x += 24.0` (which never fires). */
  function WrapHours(x: real): (r: real)
    ensures 0.0 <= r < 24.0
    ensures IsWhole((x - r) / 24.0)
  {
    var w := FloorMod(x, 24.0);
    if w < 0.0 then w + 24.0 else w
  }

  /** `calculate_local_sidereal_time` at a Julian Day: in [0, 24), and a whole number of days
      away from GMST plus the longitude in hours. */
  function LocalSiderealTime(jd: real, longitude: real): (lst: real)
    ensures 0.0 <= lst < 24.0
    ensures IsWhole((GreenwichSiderealHours(jd) + longitude / 15.0 - lst) / 24.0)
  {
    var raw := GreenwichSiderealHours(jd);
    var gmst := WrapHours(raw);
    var lst := WrapHours(gmst + longitude / 15.0);
    WholeAdd((raw - gmst) / 24.0, (gmst + longitude / 15.0 - lst) / 24.0);
    assert (raw + longitude / 15.0 - lst) / 24.0
        == (raw - gmst) / 24.0 + (gmst + longitude / 15.0 - lst) / 24.0;
    lst
  }

  // ---------------------------------------------------------------------------------------
  // Equatorial to horizontal

  /** The hour angle LST - RA, in radians. */
  function HourAngleRadians(raHours: real, observer: ObserverLocation, jd: real): real {
    Radians(HoursToDegrees(LocalSiderealTime(jd, observer.longitude) - raHours))
  }

  /** The geometric altitude, in radians, before the floor at the horizon. */
  function AltitudeRadians(trig: Trig, raHours: real, decDegrees: real, observer: ObserverLocation, jd: real): real {
    var lat := Radians(observer.latitude);
    var dec := Radians(decDegrees);
    var ha := HourAngleRadians(raHours, observer, jd);
    trig.asin(trig.sin(dec) * trig.sin(lat) + trig.cos(dec) * trig.cos(lat) * trig.cos(ha))
  }

  /** The clamped cosine of the azimuth; the argument of acos is always in [-1, 1]. */
  function AzimuthCosine(trig: Trig, raHours: real, decDegrees: real, observer: ObserverLocation, jd: real): (c: real)
    ensures -1.0 <= c <= 1.0
  {
    var lat := Radians(observer.latitude);
    var alt := AltitudeRadians(trig, raHours, decDegrees, observer, jd);
    NonzeroProduct(trig.cos(alt), trig.cos(lat));
    Clamp((trig.sin(Radians(decDegrees)) - trig.sin(alt) * trig.sin(lat)) / (trig.cos(alt) * trig.cos(lat)))
  }

  /** The azimuth from acos before the quadrant flip, in [0, 180] degrees. */
  function UnflippedAzimuth(trig: Trig, raHours: real, decDegrees: real, observer: ObserverLocation, jd: real): (az: real)
    ensures 0.0 <= az <= 180.0
  {
    var c := AzimuthCosine(trig, raHours, decDegrees, observer, jd);
    AcosDegrees(trig, c);
    Degrees(trig.acos(c))
  }

  /** `azimuth_deg % 360.0` on an azimuth already in [0, 360]. */
  lemma WrapDegreesOfTurn(az: real)
    requires 0.0 <= az <= 360.0
    ensures FloorMod(az, 360.0) == if az == 360.0 then 0.0 else az
  {
    if az < 360.0 {
      assert (az / 360.0).Floor == 0;
    } else {
      assert (az / 360.0).Floor == 1;
    }
  }

  /** `ra_dec_to_alt_az` with the observation time given as a Julian Day. The altitude is the
      geometric altitude floored at 0 (so it lies in [0, 90]); the azimuth is in [0, 360) and is
      mirrored to 360 - az exactly when sin(HA) > 0, an unflipped 0 mirroring to 360 and wrapping
      back to 0. */
  function AltAz(trig: Trig, raHours: real, decDegrees: real, observer: ObserverLocation, jd: real): (h: HorizontalCoordinates)
    ensures h.altitude == Max(0.0, Degrees(AltitudeRadians(trig, raHours, decDegrees, observer, jd)))
    ensures h.azimuth < 360.0
    ensures trig.sin(HourAngleRadians(raHours, observer, jd)) <= 0.0 ==>
              h.azimuth == UnflippedAzimuth(trig, raHours, decDegrees, observer, jd)
    ensures trig.sin(HourAngleRadians(raHours, observer, jd)) > 0.0 ==>
              var az := UnflippedAzimuth(trig, raHours, decDegrees, observer, jd);
              h.azimuth == (if az == 0.0 then 0.0 else 360.0 - az)
  {
    var lat := Radians(observer.latitude);
    var dec := Radians(decDegrees);
    var ha := HourAngleRadians(raHours, observer, jd);
    AsinDegrees(trig, trig.sin(dec) * trig.sin(lat) + trig.cos(dec) * trig.cos(lat) * trig.cos(ha));
    var altitude := Degrees(AltitudeRadians(trig, raHours, decDegrees, observer, jd));
    var east := UnflippedAzimuth(trig, raHours, decDegrees, observer, jd);
    var flipped := if trig.sin(ha) > 0.0 then 360.0 - east else east;
    WrapDegreesOfTurn(flipped);
    HorizontalRecord(Max(0.0, altitude), FloorMod(flipped, 360.0))
  }

  /** `is_object_visible`. */
  function IsObjectVisible(h: HorizontalCoordinates, minAltitude: real := 0.0): bool {
    h.altitude > minAltitude
  }

  /** Because of the floor at 0, a negative threshold reports every object visible, even one
      below the horizon; for a threshold of 0 or more the test is the geometric altitude's. */
  lemma VisibilityThreshold(trig: Trig, raHours: real, decDegrees: real, observer: ObserverLocation, jd: real, minAltitude: real)
    ensures minAltitude < 0.0 ==> IsObjectVisible(AltAz(trig, raHours, decDegrees, observer, jd), minAltitude)
    ensures minAltitude >= 0.0 ==>
              (IsObjectVisible(AltAz(trig, raHours, decDegrees, observer, jd), minAltitude)
               <==> Degrees(AltitudeRadians(trig, raHours, decDegrees, observer, jd)) > minAltitude)
    ensures minAltitude >= 90.0 ==> !IsObjectVisible(AltAz(trig, raHours, decDegrees, observer, jd), minAltitude)
  {
  }
}
