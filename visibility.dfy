/** Rise/set solver and visibility samplers: the hour angle at which a star reaches an
    altitude, the meridian transit after a day's midnight, the three rise/set regimes, the
    point-in-time and windowed samplers (loops that build a list and end with a stable sort by
    descending altitude), and the result filter. */
module Visibility {
  import opened Wrappers
  import opened Angles
  import opened Models
  import opened Coordinates
  import Seqs
  import Sorting

  /** `RiseSetTimes`. */
  datatype RiseSetTimes = RiseSetTimes(
    objectName: string,
    riseTime: Option<Instant>,
    setTime: Option<Instant>,
    transitTime: Option<Instant>,
    maxAltitude: real,
    isCircumpolar: bool,
    isNeverVisible: bool)

  // ---------------------------------------------------------------------------------------
  // Hour angle and transit

  /** The cosine of the hour angle at which a star of the given declination reaches the given
      altitude. The denominator is a product of two cosines and so never zero, which leaves the
      source's `ZeroDivisionError` handler unreachable. */
  function HourAngleCosine(trig: Trig, decDegrees: real, latitude: real, altitude: real): real {
    var dec := Radians(decDegrees);
    var lat := Radians(latitude);
    NonzeroProduct(trig.cos(dec), trig.cos(lat));
    (trig.sin(Radians(altitude)) - trig.sin(dec) * trig.sin(lat)) / (trig.cos(dec) * trig.cos(lat))
  }

  /** `calculate_hour_angle_for_altitude`: None when the cosine is below -1 (the star stays above
      the altitude) or above 1 (it never reaches it); otherwise an hour angle in [0, 180]. */
  function HourAngleForAltitude(trig: Trig, decDegrees: real, latitude: real, altitude: real := 0.0): (ha: Option<real>)
    ensures ha.Some? <==> -1.0 <= HourAngleCosine(trig, decDegrees, latitude, altitude) <= 1.0
    ensures ha.Some? ==> 0.0 <= ha.value <= 180.0
  {
    var c := HourAngleCosine(trig, decDegrees, latitude, altitude);
    if c < -1.0 then None
    else if c > 1.0 then None
    else
      AcosDegrees(trig, c);
      Some(Degrees(trig.acos(c)))
  }

  /** Length of a sidereal hour in solar hours. */
  const SiderealToSolar: real := 23.934469591 / 24.0

  /** The sidereal hours from the midnight LST until LST equals the right ascension. The result
      differs from ra - lst by a whole number of days, and lies in [0, 24) for an RA in [0, 24]
      and an LST in [0, 24). */
  function HoursToTransit(raHours: real, lstMidnight: real): (h: real)
    ensures IsWhole((h - (raHours - lstMidnight)) / 24.0)
    ensures 0.0 <= raHours <= 24.0 && 0.0 <= lstMidnight < 24.0 ==> 0.0 <= h < 24.0
  {
    var h := raHours - lstMidnight;
    if h < 0.0 then
      assert (24.0 / 24.0).Floor == 1;
      h + 24.0
    else if h >= 24.0 then
      assert (-24.0 / 24.0).Floor == -1;
      h - 24.0
    else
      assert (0.0 / 24.0).Floor == 0;
      h
  }

  /** `calculate_transit_time`: the transit after the midnight that starts the day of t. For a
      valid right ascension it falls within one sidereal day of that midnight. */
  function TransitTime(raHours: real, t: Instant, longitude: real): (transit: Instant)
    ensures 0.0 <= raHours <= 24.0 ==> Midnight(t) <= transit < Midnight(t) + 24.0 * SiderealToSolar
  {
    var midnight := Midnight(t);
    var lst := LocalSiderealTime(SourceJulianDayAt(midnight), longitude);
    midnight + HoursToTransit(raHours, lst) * SiderealToSolar
  }

  /** The transit depends only on the day of t, not on its time of day. */
  lemma TransitTimeSameDay(raHours: real, t1: Instant, t2: Instant, longitude: real)
    requires Midnight(t1) == Midnight(t2)
    ensures TransitTime(raHours, t1, longitude) == TransitTime(raHours, t2, longitude)
  {
  }

  /** The sine of the altitude at upper culmination (hour angle 0). */
  function CulminationSine(trig: Trig, decDegrees: real, latitude: real): real {
    var dec := Radians(decDegrees);
    var lat := Radians(latitude);
    trig.sin(dec) * trig.sin(lat) + trig.cos(dec) * trig.cos(lat)
  }

  /** The altitude at upper culmination, in degrees. */
  function MaxAltitude(trig: Trig, decDegrees: real, latitude: real): (alt: real)
    ensures -90.0 <= alt <= 90.0
  {
    AsinDegrees(trig, CulminationSine(trig, decDegrees, latitude));
    Degrees(trig.asin(CulminationSine(trig, decDegrees, latitude)))
  }

  // ---------------------------------------------------------------------------------------
  // Rise/set regimes

  /** The altitude used for horizon crossings, slightly below the horizon. */
  const HorizonAltitude: real := -0.5

  /** The regime flags as the source computes them. */
  predicate SourceCircumpolar(decDegrees: real, latitude: real) {
    decDegrees + latitude > 90.0
  }

  predicate SourceNeverVisible(decDegrees: real, latitude: real, maxAltitude: real) {
    decDegrees + latitude < -90.0 || maxAltitude < 0.0
  }

  /** The corrected flags. A star never sets when its lower culmination, at altitude
      |dec + lat| - 90, is above the horizon, in either hemisphere; it never rises when its
      upper culmination is below the horizon. */
  predicate IsCircumpolar(decDegrees: real, latitude: real) {
    Abs(decDegrees + latitude) > 90.0
  }

  predicate IsNeverVisible(maxAltitude: real) {
    maxAltitude < 0.0
  }

  /** The body of `calculate_rise_set_times` after the flags are computed: never-visible wins,
      then circumpolar, then a horizon crossing at HorizonAltitude placed symmetrically about
      the transit, with a defensive fallback when no crossing exists. */
  function RiseSetFromFlags(
    trig: Trig, star: StellarObject, observer: ObserverLocation, date: Instant,
    circumpolar: bool, neverVisible: bool): (r: RiseSetTimes)
    ensures r.objectName == star.name
    ensures r.maxAltitude == MaxAltitude(trig, star.decDegrees, observer.latitude)
    ensures !(r.isCircumpolar && r.isNeverVisible)
    ensures r.isNeverVisible <==> neverVisible
    ensures r.isCircumpolar <==> circumpolar && !neverVisible
    ensures r.riseTime.Some? <==> r.setTime.Some?
    ensures r.transitTime.None? <==> neverVisible
    ensures r.transitTime.Some? ==> r.transitTime.value == TransitTime(star.raHours, date, observer.longitude)
    ensures (neverVisible || circumpolar) ==> r.riseTime.None?
    ensures !neverVisible && !circumpolar ==>
              (r.riseTime.Some? <==> HourAngleForAltitude(trig, star.decDegrees, observer.latitude, HorizonAltitude).Some?)
    ensures r.riseTime.Some? ==>
              var transit := r.transitTime.value;
              && transit - r.riseTime.value == r.setTime.value - transit
              && r.riseTime.value <= transit <= r.setTime.value
              && r.setTime.value - r.riseTime.value <= 24.0 * SiderealToSolar
  {
    var maxAltitude := MaxAltitude(trig, star.decDegrees, observer.latitude);
    if neverVisible then
      RiseSetTimes(star.name, None, None, None, maxAltitude, false, true)
    else
      var transit := TransitTime(star.raHours, date, observer.longitude);
      if circumpolar then
        RiseSetTimes(star.name, None, None, Some(transit), maxAltitude, true, false)
      else
        match HourAngleForAltitude(trig, star.decDegrees, observer.latitude, HorizonAltitude)
        case None =>
          RiseSetTimes(star.name, None, None, Some(transit), maxAltitude, circumpolar, neverVisible)
        case Some(ha) =>
          var offset := DegreesToHours(ha) * SiderealToSolar;
          RiseSetTimes(star.name, Some(transit - offset), Some(transit + offset), Some(transit),
                       maxAltitude, false, false)
  }

  /** `calculate_rise_set_times` exactly as written. */
  function RiseSetAsWritten(trig: Trig, star: StellarObject, observer: ObserverLocation, date: Instant): (r: RiseSetTimes)
    ensures r.isNeverVisible <==>
              SourceNeverVisible(star.decDegrees, observer.latitude, MaxAltitude(trig, star.decDegrees, observer.latitude))
    ensures r.isCircumpolar <==>
              SourceCircumpolar(star.decDegrees, observer.latitude)
              && !SourceNeverVisible(star.decDegrees, observer.latitude, MaxAltitude(trig, star.decDegrees, observer.latitude))
    ensures r.isNeverVisible ==> r.riseTime.None? && r.setTime.None? && r.transitTime.None?
    ensures r.isCircumpolar ==> r.riseTime.None? && r.setTime.None? && r.transitTime.Some?
    ensures !r.isNeverVisible && !r.isCircumpolar ==> r.transitTime.Some?
  {
    var maxAltitude := MaxAltitude(trig, star.decDegrees, observer.latitude);
    RiseSetFromFlags(trig, star, observer, date,
                     SourceCircumpolar(star.decDegrees, observer.latitude),
                     SourceNeverVisible(star.decDegrees, observer.latitude, maxAltitude))
  }

  /** `calculate_rise_set_times` with the hemisphere-symmetric circumpolar test; the samplers use
      this one. Exactly one regime holds: never visible (nothing present), circumpolar (only the
      transit), a crossing (rise, transit and set), or the fallback (only the transit). */
  function RiseSet(trig: Trig, star: StellarObject, observer: ObserverLocation, date: Instant): (r: RiseSetTimes)
    ensures r.isNeverVisible <==> IsNeverVisible(MaxAltitude(trig, star.decDegrees, observer.latitude))
    ensures r.isCircumpolar <==>
              IsCircumpolar(star.decDegrees, observer.latitude)
              && !IsNeverVisible(MaxAltitude(trig, star.decDegrees, observer.latitude))
    ensures r.isNeverVisible ==> r.riseTime.None? && r.setTime.None? && r.transitTime.None?
    ensures r.isCircumpolar ==> r.riseTime.None? && r.setTime.None? && r.transitTime.Some?
    ensures !r.isNeverVisible && !r.isCircumpolar ==> r.transitTime.Some?
  {
    var maxAltitude := MaxAltitude(trig, star.decDegrees, observer.latitude);
    RiseSetFromFlags(trig, star, observer, date,
                     IsCircumpolar(star.decDegrees, observer.latitude), IsNeverVisible(maxAltitude))
  }

  /** For an observer on or north of the equator the correction changes nothing. */
  lemma RiseSetAgreesInNorth(trig: Trig, star: StellarObject, observer: ObserverLocation, date: Instant)
    requires observer.latitude >= 0.0
    ensures RiseSet(trig, star, observer, date) == RiseSetAsWritten(trig, star, observer, date)
  {
    assert IsCircumpolar(star.decDegrees, observer.latitude)
       <==> SourceCircumpolar(star.decDegrees, observer.latitude);
  }

  /** The correction changes only the regime flags and the transit: rise and set are the same
      for every star and observer, and the transit differs exactly for a southern star whose
      dec + lat is below -90 but which culminates above the horizon, where the source as
      written has none. */
  lemma RiseSetCorrectionDifference(trig: Trig, star: StellarObject, observer: ObserverLocation, date: Instant)
    ensures var corrected := RiseSet(trig, star, observer, date);
            var asWritten := RiseSetAsWritten(trig, star, observer, date);
            && corrected.riseTime == asWritten.riseTime
            && corrected.setTime == asWritten.setTime
            && (corrected.transitTime != asWritten.transitTime <==>
                  star.decDegrees + observer.latitude < -90.0
                  && !IsNeverVisible(MaxAltitude(trig, star.decDegrees, observer.latitude)))
            && (corrected.transitTime != asWritten.transitTime ==>
                  asWritten.transitTime.None? && corrected.transitTime.Some?)
  {
    var maxAltitude := MaxAltitude(trig, star.decDegrees, observer.latitude);
    var dl := star.decDegrees + observer.latitude;
    if dl < -90.0 && !IsNeverVisible(maxAltitude) {
      assert IsCircumpolar(star.decDegrees, observer.latitude);
    } else if dl > 90.0 {
      assert IsCircumpolar(star.decDegrees, observer.latitude);
    } else if !IsNeverVisible(maxAltitude) {
      assert -90.0 <= dl <= 90.0;
      assert !IsCircumpolar(star.decDegrees, observer.latitude) && !SourceCircumpolar(star.decDegrees, observer.latitude);
    }
  }

  /** The corrected regime is unchanged by reflecting star and observer through the equator;
      the culmination altitude is too. */
  lemma RegimeMirrorSymmetric(trig: Trig, decDegrees: real, latitude: real)
    requires HasParity(trig)
    ensures MaxAltitude(trig, -decDegrees, -latitude) == MaxAltitude(trig, decDegrees, latitude)
    ensures IsCircumpolar(-decDegrees, -latitude) <==> IsCircumpolar(decDegrees, latitude)
  {
    var dec, lat := Radians(decDegrees), Radians(latitude);
    assert Radians(-decDegrees) == -dec;
    assert Radians(-latitude) == -lat;
    assert trig.sin(-dec) == -trig.sin(dec) && trig.sin(-lat) == -trig.sin(lat);
    assert trig.cos(-dec) == trig.cos(dec) && trig.cos(-lat) == trig.cos(lat);
    assert CulminationSine(trig, -decDegrees, -latitude) == CulminationSine(trig, decDegrees, latitude);
  }

  /** Alpha Centauri (dec -60.83) seen from Sydney (lat -33.87) has its lower culmination 4.7
      degrees above the horizon, and so never sets; as written the source reports it never
      visible, with no transit, while the northern mirror image is reported circumpolar. */
  lemma SouthernCircumpolarMisreported(trig: Trig, date: Instant)
    requires HasParity(trig)
    ensures var star := StarRecord("Alpha Centauri", 14.66, -60.83, -0.27, "G2V", "Centaurus");
            var mirror := StarRecord("Mirror", 14.66, 60.83, -0.27, "G2V", "Centaurus");
            var sydney := LocationRecord(-33.87, 151.21, "Sydney", 10.0);
            var north := LocationRecord(33.87, 151.21, "Mirror", 10.0);
            && Abs(star.decDegrees + sydney.latitude) - 90.0 > 4.0
            && RiseSetAsWritten(trig, star, sydney, date).isNeverVisible
            && RiseSetAsWritten(trig, star, sydney, date).transitTime.None?
            && (MaxAltitude(trig, mirror.decDegrees, north.latitude) >= 0.0 ==>
                  RiseSetAsWritten(trig, mirror, north, date).isCircumpolar)
            && (MaxAltitude(trig, star.decDegrees, sydney.latitude) >= 0.0 ==>
                  RiseSet(trig, star, sydney, date).isCircumpolar)
  {
    RegimeMirrorSymmetric(trig, 60.83, 33.87);
  }

  // ---------------------------------------------------------------------------------------
  // Sorting results

  /** The key order of `sorted(..., key=lambda x: x.altitude, reverse=True)`. */
  function HigherOrLevel(a: VisibilityInfo, b: VisibilityInfo): bool {
    a.altitude >= b.altitude
  }

  /** The source's final sort: Python's sort is stable also with `reverse=True`. */
  function SortByAltitudeDesc(infos: seq<VisibilityInfo>): seq<VisibilityInfo> {
    Sorting.InsertionSort(infos, HigherOrLevel)
  }

  /** Descending by altitude, a permutation of the input, and records of equal altitude keep
      their input order. */
  lemma SortByAltitudeDescSpec(infos: seq<VisibilityInfo>)
    ensures Sorting.SortedBy(SortByAltitudeDesc(infos), HigherOrLevel)
    ensures Sorting.StablePermutation(SortByAltitudeDesc(infos), infos, HigherOrLevel)
  {
    assert Sorting.TotalPreorder(HigherOrLevel);
    Sorting.InsertionSortSpec(infos, HigherOrLevel);
  }

  // ---------------------------------------------------------------------------------------
  // Visibility at one instant

  /** The star's horizontal position at an instant. */
  function Observe(trig: Trig, star: StellarObject, observer: ObserverLocation, t: Instant): HorizontalCoordinates {
    AltAz(trig, star.raHours, star.decDegrees, observer, SourceJulianDayAt(t))
  }

  /** The record `calculate_current_visibility` builds for a visible star: the position at t,
      and rise, set and transit for the day of t, the transit as the time of maximum altitude. */
  function NowRecord(trig: Trig, star: StellarObject, observer: ObserverLocation, t: Instant): VisibilityInfo {
    var h := Observe(trig, star, observer, t);
    var rs := RiseSet(trig, star, observer, t);
    VisibilityInfo(star.name, true, h.altitude, h.azimuth, rs.riseTime, rs.setTime, rs.transitTime)
  }

  /** The record the source builds with `calculate_rise_set_times` as written. */
  function NowRecordAsWritten(trig: Trig, star: StellarObject, observer: ObserverLocation, t: Instant): VisibilityInfo {
    var h := Observe(trig, star, observer, t);
    var rs := RiseSetAsWritten(trig, star, observer, t);
    VisibilityInfo(star.name, true, h.altitude, h.azimuth, rs.riseTime, rs.setTime, rs.transitTime)
  }

  /** The record with the corrected solver equals the source's record in every field but the
      time of maximum altitude, which the source leaves out exactly for a southern star with
      dec + lat below -90 that culminates above the horizon. */
  lemma NowRecordCorrection(trig: Trig, star: StellarObject, observer: ObserverLocation, t: Instant)
    ensures var corrected := NowRecord(trig, star, observer, t);
            var asWritten := NowRecordAsWritten(trig, star, observer, t);
            && corrected.(maxAltitudeTime := asWritten.maxAltitudeTime) == asWritten
            && (corrected != asWritten <==>
                  star.decDegrees + observer.latitude < -90.0
                  && !IsNeverVisible(MaxAltitude(trig, star.decDegrees, observer.latitude)))
            && (corrected != asWritten ==> asWritten.maxAltitudeTime.None?)
  {
    RiseSetCorrectionDifference(trig, star, observer, t);
  }

  /** The record of a star if it is visible at t. */
  function NowEntry(trig: Trig, observer: ObserverLocation, t: Instant, minAltitude: real): StellarObject -> Option<VisibilityInfo> {
    (star: StellarObject) =>
      if IsObjectVisible(Observe(trig, star, observer, t), minAltitude) then Some(NowRecord(trig, star, observer, t))
      else None
  }

  /** The records of the visible stars, in input order. */
  function NowRecords(trig: Trig, stars: seq<StellarObject>, observer: ObserverLocation, t: Instant, minAltitude: real): seq<VisibilityInfo> {
    Seqs.FilterMap(stars, NowEntry(trig, observer, t, minAltitude))
  }

  /** A record is listed iff it is the record of some star that is visible at t. */
  lemma NowRecordsMembers(trig: Trig, stars: seq<StellarObject>, observer: ObserverLocation, t: Instant, minAltitude: real)
    ensures |NowRecords(trig, stars, observer, t, minAltitude)| <= |stars|
    ensures forall x :: x in NowRecords(trig, stars, observer, t, minAltitude) <==>
              exists i :: 0 <= i < |stars| && IsObjectVisible(Observe(trig, stars[i], observer, t), minAltitude)
                          && x == NowRecord(trig, stars[i], observer, t)
  {
    Seqs.FilterMapMembers(stars, NowEntry(trig, observer, t, minAltitude));
  }

  /** `calculate_current_visibility`. */
  method CurrentVisibility(trig: Trig, stars: seq<StellarObject>, observer: ObserverLocation, t: Instant, minAltitude: real := 0.0)
    returns (visible: seq<VisibilityInfo>)
    ensures visible == SortByAltitudeDesc(NowRecords(trig, stars, observer, t, minAltitude))
  {
    var found: seq<VisibilityInfo> := [];
    for i := 0 to |stars|
      invariant found == NowRecords(trig, stars[..i], observer, t, minAltitude)
    {
      var star := stars[i];
      var horizontal := AltAz(trig, star.raHours, star.decDegrees, observer, SourceJulianDayAt(t));
      if horizontal.altitude > minAltitude {
        var riseSet := RiseSet(trig, star, observer, t);
        found := found + [VisibilityInfo(star.name, true, horizontal.altitude, horizontal.azimuth,
                                         riseSet.riseTime, riseSet.setTime, riseSet.transitTime)];
      }
      assert stars[..i + 1][..i] == stars[..i];
    }
    assert stars[..|stars|] == stars;
    visible := SortByAltitudeDesc(found);
  }

  // ---------------------------------------------------------------------------------------
  // Visibility over a window

  /** The k-th sample instant: `current_time` after k additions of the step. */
  function SampleTime(start: Instant, step: real, k: nat): Instant {
    if k == 0 then start else SampleTime(start, step, k - 1) + step
  }

  /** Each sample lies one step after the previous one. */
  lemma SampleTimeNext(start: Instant, step: real, k: nat)
    ensures SampleTime(start, step, k + 1) == SampleTime(start, step, k) + step
  {
  }

  lemma {:induction false} SampleTimeAfterStart(start: Instant, step: real, k: nat)
    requires step > 0.0
    ensures SampleTime(start, step, k) >= start
  {
    if k > 0 {
      SampleTimeAfterStart(start, step, k - 1);
    }
  }

  /** Sample k lies k steps after the start. */
  lemma {:induction false} SampleTimeClosedForm(start: Instant, step: real, k: nat)
    ensures SampleTime(start, step, k) == start + (k as real) * step
  {
    if k > 0 {
      SampleTimeClosedForm(start, step, k - 1);
      assert ((k - 1) as real) * step + step == (k as real) * step;
    }
  }

  lemma MulMonotone(a: real, b: real, c: real)
    requires c > 0.0
    ensures a <= b <==> a * c <= b * c
  {
    if a < b { PositiveProduct(b - a, c); }
    if b < a { PositiveProduct(a - b, c); }
  }

  /** The number of samples of `while current <= end: ...; current += step`. */
  function SampleCount(start: Instant, end: Instant, step: real): nat
    requires step > 0.0
  {
    if end < start then 0 else ((end - start) / step).Floor + 1
  }

  /** Sample k is taken exactly when k < SampleCount. */
  lemma SampleCountSpec(start: Instant, end: Instant, step: real, k: nat)
    requires step > 0.0
    ensures SampleTime(start, step, k) <= end <==> k < SampleCount(start, end, step)
  {
    SampleTimeClosedForm(start, step, k);
    if end < start {
      MulMonotone(0.0, k as real, step);
    } else {
      var q := (end - start) / step;
      assert q * step == end - start;
      MulMonotone(k as real, q, step);
      assert (k as real) <= q <==> k <= q.Floor;
    }
  }

  /** The altitude `ra_dec_to_alt_az` gives for the star at each instant. */
  function AltitudeAt(trig: Trig, star: StellarObject, observer: ObserverLocation): Instant -> real {
    (t: Instant) => Observe(trig, star, observer, t).altitude
  }

  /** The altitude of the k-th sample. */
  function SampleAltitude(trig: Trig, star: StellarObject, observer: ObserverLocation, start: Instant, step: real, k: nat): real {
    Observe(trig, star, observer, SampleTime(start, step, k)).altitude
  }

  /** `max_altitude_seen` after the first k samples of altitudeAt, starting from -90. */
  function MaxSeen(altitudeAt: Instant -> real, start: Instant, step: real, k: nat): (m: real)
    ensures m >= -90.0
  {
    if k == 0 then -90.0
    else
      var prev := MaxSeen(altitudeAt, start, step, k - 1);
      var a := altitudeAt(SampleTime(start, step, k - 1));
      if a > prev then a else prev
  }

  /** The sample `best_time` holds after the first k samples: it moves only on a strict increase
      over the running maximum. */
  function BestIndex(altitudeAt: Instant -> real, start: Instant, step: real, k: nat): (b: nat)
    ensures k == 0 ==> b == 0
    ensures k > 0 ==> b < k
  {
    if k == 0 then 0
    else if altitudeAt(SampleTime(start, step, k - 1)) > MaxSeen(altitudeAt, start, step, k - 1) then k - 1
    else BestIndex(altitudeAt, start, step, k - 1)
  }

  /** `ever_visible` after the first k samples. */
  function AnyAbove(altitudeAt: Instant -> real, start: Instant, step: real, minAltitude: real, k: nat): bool {
    if k == 0 then false
    else AnyAbove(altitudeAt, start, step, minAltitude, k - 1) || altitudeAt(SampleTime(start, step, k - 1)) > minAltitude
  }

  /** How sample k updates the running maximum, its index and `ever_visible`. */
  lemma ScanStep(altitudeAt: Instant -> real, start: Instant, step: real, minAltitude: real, k: nat)
    ensures var a := altitudeAt(SampleTime(start, step, k));
            && MaxSeen(altitudeAt, start, step, k + 1) ==
                 (if a > MaxSeen(altitudeAt, start, step, k) then a else MaxSeen(altitudeAt, start, step, k))
            && BestIndex(altitudeAt, start, step, k + 1) ==
                 (if a > MaxSeen(altitudeAt, start, step, k) then k else BestIndex(altitudeAt, start, step, k))
            && AnyAbove(altitudeAt, start, step, minAltitude, k + 1) ==
                 (AnyAbove(altitudeAt, start, step, minAltitude, k) || a > minAltitude)
  {
  }

  /** The running maximum bounds every sample so far and is one of them, unless it is still -90. */
  lemma {:induction false} MaxSeenSpec(altitudeAt: Instant -> real, start: Instant, step: real, k: nat)
    ensures forall i :: 0 <= i < k ==> altitudeAt(SampleTime(start, step, i)) <= MaxSeen(altitudeAt, start, step, k)
    ensures MaxSeen(altitudeAt, start, step, k) > -90.0 ==>
            exists i :: 0 <= i < k && altitudeAt(SampleTime(start, step, i)) == MaxSeen(altitudeAt, start, step, k)
  {
    if k > 0 {
      MaxSeenSpec(altitudeAt, start, step, k - 1);
    }
  }

  /** Once a sample exceeds -90, where the running maximum starts, the best sample is the first
      one attaining the maximum. */
  lemma {:induction false} BestIndexSpec(altitudeAt: Instant -> real, start: Instant, step: real, k: nat)
    ensures var b := BestIndex(altitudeAt, start, step, k);
            MaxSeen(altitudeAt, start, step, k) > -90.0 ==>
              && altitudeAt(SampleTime(start, step, b)) == MaxSeen(altitudeAt, start, step, k)
              && (forall i :: 0 <= i < b ==> altitudeAt(SampleTime(start, step, i)) < MaxSeen(altitudeAt, start, step, k))
  {
    if k > 0 {
      MaxSeenSpec(altitudeAt, start, step, k - 1);
      BestIndexSpec(altitudeAt, start, step, k - 1);
    }
  }

  /** `ever_visible` is set iff some sample so far is above the threshold. */
  lemma {:induction false} AnyAboveSpec(altitudeAt: Instant -> real, start: Instant, step: real, minAltitude: real, k: nat)
    ensures AnyAbove(altitudeAt, start, step, minAltitude, k) ==>
            exists i :: 0 <= i < k && altitudeAt(SampleTime(start, step, i)) > minAltitude
    ensures (exists i :: 0 <= i < k && altitudeAt(SampleTime(start, step, i)) > minAltitude) ==>
            AnyAbove(altitudeAt, start, step, minAltitude, k)
  {
    if k > 0 {
      AnyAboveSpec(altitudeAt, start, step, minAltitude, k - 1);
    }
  }

  /** The record the windowed sampler produces for one star, or None when no sample is above
      the threshold. Rise and set are taken for the day of the window's start. */
  function WindowRecord(
    trig: Trig, star: StellarObject, observer: ObserverLocation,
    start: Instant, end: Instant, step: real, minAltitude: real): Option<VisibilityInfo>
    requires step > 0.0
  {
    var n := SampleCount(start, end, step);
    if !AnyAbove(AltitudeAt(trig, star, observer), start, step, minAltitude, n) then None
    else
      var best := SampleTime(start, step, BestIndex(AltitudeAt(trig, star, observer), start, step, n));
      var h := Observe(trig, star, observer, best);
      var riseSet := RiseSet(trig, star, observer, start);
      Some(VisibilityInfo(star.name, true, h.altitude, h.azimuth, riseSet.riseTime, riseSet.setTime, Some(best)))
  }

  /** A star gets a record iff one of its samples in [start, end] is above the threshold. */
  lemma WindowRecordPresent(
    trig: Trig, star: StellarObject, observer: ObserverLocation,
    start: Instant, end: Instant, step: real, minAltitude: real)
    requires step > 0.0
    ensures WindowRecord(trig, star, observer, start, end, step, minAltitude).Some? <==>
            exists k :: 0 <= k < SampleCount(start, end, step) &&
                        SampleAltitude(trig, star, observer, start, step, k) > minAltitude
  {
    var f := AltitudeAt(trig, star, observer);
    assert forall k: nat :: f(SampleTime(start, step, k)) == SampleAltitude(trig, star, observer, start, step, k);
    AnyAboveSpec(f, start, step, minAltitude, SampleCount(start, end, step));
  }

  /** The record carries the highest sampled altitude, and as its time the first sample in
      [start, end] reaching it. */
  lemma WindowRecordBest(
    trig: Trig, star: StellarObject, observer: ObserverLocation,
    start: Instant, end: Instant, step: real, minAltitude: real)
    requires step > 0.0
    ensures var n := SampleCount(start, end, step);
            var r := WindowRecord(trig, star, observer, start, end, step, minAltitude);
            r.Some? ==>
              var b := BestIndex(AltitudeAt(trig, star, observer), start, step, n);
              && b < n
              && r.value.maxAltitudeTime == Some(SampleTime(start, step, b))
              && start <= SampleTime(start, step, b) <= end
              && r.value.altitude == SampleAltitude(trig, star, observer, start, step, b)
              && (forall k :: 0 <= k < n ==> SampleAltitude(trig, star, observer, start, step, k) <= r.value.altitude)
              && (forall k :: 0 <= k < b ==> SampleAltitude(trig, star, observer, start, step, k) < r.value.altitude)
  {
    var n := SampleCount(start, end, step);
    var f := AltitudeAt(trig, star, observer);
    assert forall k: nat :: f(SampleTime(start, step, k)) == SampleAltitude(trig, star, observer, start, step, k);
    AnyAboveSpec(f, start, step, minAltitude, n);
    MaxSeenSpec(f, start, step, n);
    if AnyAbove(f, start, step, minAltitude, n) {
      var k :| 0 <= k < n && f(SampleTime(start, step, k)) > minAltitude;
      assert MaxSeen(f, start, step, n) >= SampleAltitude(trig, star, observer, start, step, k) >= 0.0;
      BestIndexSpec(f, start, step, n);
      var b := BestIndex(f, start, step, n);
      SampleCountSpec(start, end, step, b);
      SampleTimeAfterStart(start, step, b);
    }
  }

  function WindowEntry(
    trig: Trig, observer: ObserverLocation,
    start: Instant, end: Instant, step: real, minAltitude: real): StellarObject -> Option<VisibilityInfo>
  {
    (star: StellarObject) => if step > 0.0 then WindowRecord(trig, star, observer, start, end, step, minAltitude) else None
  }

  /** The records of the stars visible in the window, in input order. */
  function WindowRecords(
    trig: Trig, stars: seq<StellarObject>, observer: ObserverLocation,
    start: Instant, end: Instant, step: real, minAltitude: real): seq<VisibilityInfo>
  {
    Seqs.FilterMap(stars, WindowEntry(trig, observer, start, end, step, minAltitude))
  }

  /** A record is listed iff it is the window record of some star. */
  lemma WindowRecordsMembers(
    trig: Trig, stars: seq<StellarObject>, observer: ObserverLocation,
    start: Instant, end: Instant, step: real, minAltitude: real)
    requires step > 0.0
    ensures |WindowRecords(trig, stars, observer, start, end, step, minAltitude)| <= |stars|
    ensures forall x :: x in WindowRecords(trig, stars, observer, start, end, step, minAltitude) <==>
              exists i :: 0 <= i < |stars| && WindowRecord(trig, stars[i], observer, start, end, step, minAltitude) == Some(x)
  {
    Seqs.FilterMapMembers(stars, WindowEntry(trig, observer, start, end, step, minAltitude));
  }

  /** The sampling loop of `calculate_visibility_for_time_range` for one star, whose altitude
      at each instant altitudeAt gives: `ever_visible` and `best_time` as the loop leaves them. */
  method ScanSamples(altitudeAt: Instant -> real, start: Instant, end: Instant, step: real, minAltitude: real)
    returns (everVisible: bool, bestTime: Instant)
    requires step > 0.0
    ensures var n := SampleCount(start, end, step);
            && everVisible == AnyAbove(altitudeAt, start, step, minAltitude, n)
            && bestTime == SampleTime(start, step, BestIndex(altitudeAt, start, step, n))
  {
    var current := start;
    var maxAltitudeSeen := -90.0;
    bestTime := start;
    everVisible := false;
    ghost var k: nat := 0;
    ghost var bestIndex: nat := 0;
    while current <= end
      invariant k <= SampleCount(start, end, step)
      invariant current == SampleTime(start, step, k)
      invariant maxAltitudeSeen == MaxSeen(altitudeAt, start, step, k)
      invariant bestIndex == BestIndex(altitudeAt, start, step, k)
      invariant bestTime == SampleTime(start, step, bestIndex)
      invariant everVisible == AnyAbove(altitudeAt, start, step, minAltitude, k)
      decreases SampleCount(start, end, step) - k
    {
      SampleCountSpec(start, end, step, k);
      SampleTimeNext(start, step, k);
      ScanStep(altitudeAt, start, step, minAltitude, k);
      var altitude := altitudeAt(current);
      if altitude > minAltitude {
        everVisible := true;
      }
      if altitude > maxAltitudeSeen {
        maxAltitudeSeen := altitude;
        bestTime := current;
        bestIndex := k;
      }
      current := current + step;
      k := k + 1;
    }
    SampleCountSpec(start, end, step, k);
  }

  /** `timedelta(minutes=m)` as a span of hours. */
  function MinutesToHours(minutes: int): (hours: real)
    ensures minutes > 0 ==> hours > 0.0
    ensures minutes <= 0 ==> hours <= 0.0
    ensures hours * 60.0 == minutes as real
  {
    minutes as real / 60.0
  }

  /** The body of the loop over the stars in `calculate_visibility_for_time_range`: scan the
      window, and if the star was ever above the threshold build its record from the position
      at the best sample and the rise and set of the start's day. */
  method ScanStar(
    trig: Trig, star: StellarObject, observer: ObserverLocation,
    start: Instant, end: Instant, step: real, minAltitude: real)
    returns (record: Option<VisibilityInfo>)
    requires step > 0.0
    ensures record == WindowRecord(trig, star, observer, start, end, step, minAltitude)
  {
    var everVisible, bestTime := ScanSamples(AltitudeAt(trig, star, observer), start, end, step, minAltitude);
    if everVisible {
      var best := AltAz(trig, star.raHours, star.decDegrees, observer, SourceJulianDayAt(bestTime));
      var riseSet := RiseSet(trig, star, observer, start);
      record := Some(VisibilityInfo(star.name, true, best.altitude, best.azimuth,
                                    riseSet.riseTime, riseSet.setTime, Some(bestTime)));
    } else {
      record := None;
    }
  }

  /** One more star extends the records by that star's window record, if it has one. */
  lemma WindowRecordsAppend(
    trig: Trig, stars: seq<StellarObject>, i: nat, observer: ObserverLocation,
    start: Instant, end: Instant, step: real, minAltitude: real)
    requires step > 0.0 && i < |stars|
    ensures var r := WindowRecord(trig, stars[i], observer, start, end, step, minAltitude);
            WindowRecords(trig, stars[..i + 1], observer, start, end, step, minAltitude) ==
              WindowRecords(trig, stars[..i], observer, start, end, step, minAltitude) + if r.Some? then [r.value] else []
  {
    assert stars[..i + 1] == stars[..i] + [stars[i]];
    Seqs.FilterMapAppend(stars[..i], stars[i], WindowEntry(trig, observer, start, end, step, minAltitude));
  }

  /** The loop over the stars of `calculate_visibility_for_time_range`: the records of the
      stars seen above the threshold, in input order. */
  method CollectWindowRecords(
    trig: Trig, stars: seq<StellarObject>, observer: ObserverLocation,
    start: Instant, end: Instant, step: real, minAltitude: real)
    returns (found: seq<VisibilityInfo>)
    requires step > 0.0
    ensures found == WindowRecords(trig, stars, observer, start, end, step, minAltitude)
  {
    found := [];
    for i := 0 to |stars|
      invariant found == WindowRecords(trig, stars[..i], observer, start, end, step, minAltitude)
    {
      var record := ScanStar(trig, stars[i], observer, start, end, step, minAltitude);
      WindowRecordsAppend(trig, stars, i, observer, start, end, step, minAltitude);
      if record.Some? {
        found := found + [record.value];
      }
    }
    assert stars[..|stars|] == stars;
  }

  /** A window that ends before it starts, or a step of zero or less, gives no record: the
      sampling loop takes no sample (for the step, WindowEntry's guard). */
  lemma {:induction false} NoWindowRecords(
    trig: Trig, stars: seq<StellarObject>, observer: ObserverLocation,
    start: Instant, end: Instant, step: real, minAltitude: real)
    requires end < start || step <= 0.0
    ensures WindowRecords(trig, stars, observer, start, end, step, minAltitude) == []
    decreases |stars|
  {
    if |stars| > 0 {
      NoWindowRecords(trig, stars[..|stars| - 1], observer, start, end, step, minAltitude);
      if step > 0.0 {
        assert SampleCount(start, end, step) == 0;
      }
    }
  }

  /** `calculate_visibility_for_time_range`, the step given in minutes. Once there is a star and
      start <= end, a step of zero never ends Python's sampling loop, and a negative one raises
      OverflowError when the sample time passes `datetime.min`. The precondition therefore
      admits such a step only with no star or a window ending before its start; the source then
      returns [] without taking a sample. */
  method VisibilityForTimeRange(
    trig: Trig, stars: seq<StellarObject>, observer: ObserverLocation,
    start: Instant, end: Instant, minAltitude: real := 0.0, timeStepMinutes: int := 60)
    returns (visible: seq<VisibilityInfo>)
    requires timeStepMinutes > 0 || stars == [] || end < start
    ensures visible == SortByAltitudeDesc(
              WindowRecords(trig, stars, observer, start, end, MinutesToHours(timeStepMinutes), minAltitude))
    ensures stars == [] || end < start ==> visible == []
  {
    var step := MinutesToHours(timeStepMinutes);
    if timeStepMinutes > 0 {
      var found := CollectWindowRecords(trig, stars, observer, start, end, step, minAltitude);
      visible := SortByAltitudeDesc(found);
    } else {
      visible := [];
    }
    if end < start || step <= 0.0 {
      NoWindowRecords(trig, stars, observer, start, end, step, minAltitude);
    } else if stars == [] {
      assert WindowRecords(trig, stars, observer, start, end, step, minAltitude) == [];
    }
  }

  // ---------------------------------------------------------------------------------------
  // Filtering results

  function AtLeast(minAltitude: real): VisibilityInfo -> bool {
    (info: VisibilityInfo) => info.altitude >= minAltitude
  }

  /** `filter_visible_objects`: the records with altitude >= min_altitude, in order, cut to
      `filtered[:max_results]` when a limit is given (a negative limit drops that many from the
      end, as Python slicing does). */
  function FilterVisibleObjects(infos: seq<VisibilityInfo>, minAltitude: real := 0.0, maxResults: Option<int> := None): (r: seq<VisibilityInfo>)
    ensures |r| <= |Seqs.Filter(infos, AtLeast(minAltitude))|
    ensures r == Seqs.Filter(infos, AtLeast(minAltitude))[..|r|]
    ensures maxResults.None? ==> r == Seqs.Filter(infos, AtLeast(minAltitude))
    ensures maxResults.Some? && 0 <= maxResults.value <= |Seqs.Filter(infos, AtLeast(minAltitude))| ==>
              |r| == maxResults.value
    ensures maxResults.Some? && maxResults.value > |Seqs.Filter(infos, AtLeast(minAltitude))| ==>
              r == Seqs.Filter(infos, AtLeast(minAltitude))
    ensures forall x :: x in r ==> x in infos && x.altitude >= minAltitude
  {
    var filtered := Seqs.Filter(infos, AtLeast(minAltitude));
    var r := if maxResults.Some? then Seqs.TakePy(filtered, maxResults.value) else filtered;
    Seqs.FilterKeepsExactly(infos, AtLeast(minAltitude));
    assert forall x :: x in r ==> x in filtered;
    r
  }
}
