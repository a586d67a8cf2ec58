/** Reading an observer's location from user input: a known city name or a pair of
    coordinates, each decimal, degrees-minutes-seconds or degrees-minutes; suggestions for
    misspelt cities; and the suitability check and descriptive zones of a location. */
module Location {
  import opened Wrappers
  import opened Models
  import Text
  import Seqs
  import Angles

  // ---------------------------------------------------------------------------------------
  // One coordinate

  /** The groups of the degrees-minutes-seconds pattern: two runs of digits, a decimal
      number, and an optional N, S, E or W. */
  datatype DmsGroups = DmsGroups(degrees: nat, minutes: nat, seconds: real, direction: string)

  /** The groups of the degrees-minutes pattern. */
  datatype DmGroups = DmGroups(degrees: nat, minutes: real, direction: string)

  /** What `float()` and the two `re.match` calls make of a normalised coordinate string. */
  datatype Recognizers = Recognizers(
    asFloat: string -> Option<real>,
    asDms: string -> Option<DmsGroups>,
    asDm: string -> Option<DmGroups>)

  /** The decimal groups consist of digits and a point, so they are never negative. */
  ghost predicate FollowsPatterns(r: Recognizers) {
    && (forall t :: r.asDms(t).Some? ==> r.asDms(t).value.seconds >= 0.0)
    && (forall t :: r.asDm(t).Some? ==> r.asDm(t).value.minutes >= 0.0)
  }

  type Scanner = r: Recognizers | FollowsPatterns(r)
    witness Recognizers(t => None, t => None, t => None)

  predicate SouthOrWest(direction: string) {
    direction == "S" || direction == "W"
  }

  /** A south or west direction letter makes the value negative. */
  function ApplyDirection(direction: string, magnitude: real): real {
    if SouthOrWest(direction) then -magnitude else magnitude
  }

  function DmsDecimal(g: DmsGroups): real {
    g.degrees as real + g.minutes as real / 60.0 + g.seconds / 3600.0
  }

  function DmDecimal(g: DmGroups): real {
    g.degrees as real + g.minutes / 60.0
  }

  /** `coord_str.strip().upper()`. */
  function Normalise(s: string): string {
    Text.Upper(Text.Strip(s))
  }

  /** `parse_coordinate_string`: a value, or failure carrying the normalised text. */
  datatype CoordinateResult = Coordinate(value: real) | Unparsed(text: string)

  /** A plain number is tried first, then degrees-minutes-seconds, then degrees-minutes. A
      pattern's value has the magnitude of its degrees, minutes and seconds, and is negative
      exactly when the direction is S or W (and the magnitude is not zero). */
  function ParseCoordinateString(scanner: Scanner, s: string): (r: CoordinateResult)
    ensures var t := Normalise(s);
            && (scanner.asFloat(t).Some? ==> r == Coordinate(scanner.asFloat(t).value))
            && (scanner.asFloat(t).None? && scanner.asDms(t).Some? ==>
                  var g := scanner.asDms(t).value;
                  && r.Coordinate?
                  && Angles.Abs(r.value) == DmsDecimal(g)
                  && (r.value < 0.0 <==> SouthOrWest(g.direction) && DmsDecimal(g) > 0.0))
            && (scanner.asFloat(t).None? && scanner.asDms(t).None? && scanner.asDm(t).Some? ==>
                  var g := scanner.asDm(t).value;
                  && r.Coordinate?
                  && Angles.Abs(r.value) == DmDecimal(g)
                  && (r.value < 0.0 <==> SouthOrWest(g.direction) && DmDecimal(g) > 0.0))
            && (r.Unparsed? <==> scanner.asFloat(t).None? && scanner.asDms(t).None? && scanner.asDm(t).None?)
            && (r.Unparsed? ==> r.text == t)
  {
    var t := Normalise(s);
    match scanner.asFloat(t)
    case Some(v) => Coordinate(v)
    case None =>
      match scanner.asDms(t)
      case Some(g) => Coordinate(ApplyDirection(g.direction, DmsDecimal(g)))
      case None =>
        match scanner.asDm(t)
        case Some(g) => Coordinate(ApplyDirection(g.direction, DmDecimal(g)))
        case None => Unparsed(t)
  }

  // ---------------------------------------------------------------------------------------
  // The city table

  datatype CityRecord = CityRecord(key: string, latitude: real, longitude: real, displayName: string)

  /** An entry of `CITY_COORDINATES`; every entry is a valid observer location. */
  type City = c: CityRecord | ValidLatitude(c.latitude) && ValidLongitude(c.longitude)
    witness CityRecord("", 0.0, 0.0, "")

  /** A dictionary has each key once. */
  ghost predicate DistinctKeys(cities: seq<City>) {
    forall i, j :: 0 <= i < j < |cities| ==> cities[i].key != cities[j].key
  }

  /** `CITY_COORDINATES.get(key)`. */
  function Lookup(cities: seq<City>, key: string): (r: Option<City>)
    ensures r.Some? ==> r.value in cities && r.value.key == key
    ensures r.None? ==> forall c :: c in cities ==> c.key != key
    decreases |cities|
  {
    if |cities| == 0 then None
    else if cities[0].key == key then Some(cities[0])
    else Lookup(cities[1..], key)
  }

  /** In a table with distinct keys, every entry is found under its key. */
  lemma {:induction false} LookupFinds(cities: seq<City>, c: City)
    requires DistinctKeys(cities) && c in cities
    ensures Lookup(cities, c.key) == Some(c)
    decreases |cities|
  {
    if cities[0] != c {
      assert c in cities[1..];
      var j :| 0 <= j < |cities| && cities[j] == c;
      assert cities[0].key != c.key;
      assert DistinctKeys(cities[1..]) by {
        forall i, j | 0 <= i < j < |cities[1..]| ensures cities[1..][i].key != cities[1..][j].key {
          assert cities[1..][i] == cities[i + 1] && cities[1..][j] == cities[j + 1];
        }
      }
      LookupFinds(cities[1..], c);
    }
  }

  /** The observer location of a city; the constructor's timezone offset defaults to 0. */
  function CityLocation(c: City): (l: ObserverLocation)
    ensures NewObserverLocation(c.latitude, c.longitude, c.displayName, None) == Built(l)
  {
    LocationRecord(c.latitude, c.longitude, c.displayName, 0.0)
  }

  // ---------------------------------------------------------------------------------------
  // parse_location_input

  /** The branch that rejected an input; each carries what its message prints. */
  datatype LocationError =
    | NoError
    | EmptyLocation
    | InvalidLatitude(cause: string)
    | InvalidLongitude(cause: string)
    | LatitudeNotInRange(latitude: real)
    | LongitudeNotInRange(longitude: real)
    | UnknownFormat(input: string)

  /** `LocationParseResult`. */
  datatype LocationParseResult = LocationParseResult(
    success: bool,
    location: Option<ObserverLocation>,
    error: LocationError)

  function Success(l: ObserverLocation): LocationParseResult {
    LocationParseResult(true, Some(l), NoError)
  }

  function Failure(e: LocationError): LocationParseResult {
    LocationParseResult(false, None, e)
  }

  /** The name given to a location read from coordinates: each absolute value with four
      decimals (formatted by `fixed4`) and its hemisphere letter. */
  function CoordinateLabel(fixed4: real -> string, latitude: real, longitude: real): string {
    fixed4(Angles.Abs(latitude)) + "°" + (if latitude >= 0.0 then "N" else "S") + ", "
    + fixed4(Angles.Abs(longitude)) + "°" + (if longitude >= 0.0 then "E" else "W")
  }

  /** The two comma-separated parts: latitude first, then longitude, then the range checks
      in the same order. */
  function ParseCoordinates(scanner: Scanner, fixed4: real -> string, latText: string, lonText: string): LocationParseResult {
    match ParseCoordinateString(scanner, latText)
    case Unparsed(cause) => Failure(InvalidLatitude(cause))
    case Coordinate(latitude) =>
      match ParseCoordinateString(scanner, lonText)
      case Unparsed(cause) => Failure(InvalidLongitude(cause))
      case Coordinate(longitude) =>
        if !(-90.0 <= latitude <= 90.0) then Failure(LatitudeNotInRange(latitude))
        else if !(-180.0 <= longitude <= 180.0) then Failure(LongitudeNotInRange(longitude))
        else Success(LocationRecord(latitude, longitude, CoordinateLabel(fixed4, latitude, longitude), 0.0))
  }

  /** `parse_location_input` over a city table: empty input, then a city key (matched in
      lower case), then exactly two comma-separated coordinates; anything else is of
      unknown format. A location is present exactly when the parse succeeded. */
  function ParseLocationInput(cities: seq<City>, scanner: Scanner, fixed4: real -> string, s: string): (r: LocationParseResult)
    ensures r.success <==> r.location.Some?
    ensures r.success <==> r.error == NoError
  {
    var t := Text.Strip(s);
    if t == "" then Failure(EmptyLocation)
    else
      match Lookup(cities, Text.Lower(t))
      case Some(c) => Success(CityLocation(c))
      case None =>
        var parts := Text.Split(t, ',');
        if ',' in t && |parts| == 2 then ParseCoordinates(scanner, fixed4, parts[0], parts[1])
        else Failure(UnknownFormat(t))
  }

  /** Empty or whitespace-only input, and only that, is rejected as empty. */
  lemma EmptyInputRejected(cities: seq<City>, scanner: Scanner, fixed4: real -> string, s: string)
    ensures ParseLocationInput(cities, scanner, fixed4, s).error == EmptyLocation <==> Text.AllSpace(s)
  {
    Text.StripEmpty(s);
  }

  /** A city key, in any letter case and with surrounding whitespace, is looked up before any
      coordinate parsing and gives the table's coordinates and display name. */
  lemma CityTriedFirst(cities: seq<City>, scanner: Scanner, fixed4: real -> string, s: string, c: City)
    requires DistinctKeys(cities) && c in cities
    requires Text.Strip(s) != "" && Text.Lower(Text.Strip(s)) == c.key
    ensures ParseLocationInput(cities, scanner, fixed4, s) == Success(CityLocation(c))
  {
    LookupFinds(cities, c);
  }

  /** Input that is not a city and does not hold exactly one comma is of unknown format. */
  lemma UnknownFormatUnlessOneComma(cities: seq<City>, scanner: Scanner, fixed4: real -> string, s: string)
    requires Text.Strip(s) != "" && Lookup(cities, Text.Lower(Text.Strip(s))).None?
    requires Text.CountChar(Text.Strip(s), ',') != 1
    ensures ParseLocationInput(cities, scanner, fixed4, s) == Failure(UnknownFormat(Text.Strip(s)))
  {
  }

  /** On the coordinate path the latitude is reported before the longitude is looked at; a
      success carries the two parsed values, in range. */
  lemma CoordinatePath(cities: seq<City>, scanner: Scanner, fixed4: real -> string, s: string)
    requires Text.Strip(s) != "" && Lookup(cities, Text.Lower(Text.Strip(s))).None?
    requires Text.CountChar(Text.Strip(s), ',') == 1
    ensures var parts := Text.Split(Text.Strip(s), ',');
            var r := ParseLocationInput(cities, scanner, fixed4, s);
            var lat := ParseCoordinateString(scanner, parts[0]);
            var lon := ParseCoordinateString(scanner, parts[1]);
            && |parts| == 2
            && (lat.Unparsed? ==> r.error == InvalidLatitude(lat.text))
            && (lat.Coordinate? && lon.Unparsed? ==> r.error == InvalidLongitude(lon.text))
            && (r.success ==>
                  && lat.Coordinate? && lon.Coordinate?
                  && r.location.value.latitude == lat.value
                  && r.location.value.longitude == lon.value
                  && ValidLatitude(lat.value) && ValidLongitude(lon.value))
            && (lat.Coordinate? && lon.Coordinate? && ValidLatitude(lat.value) && ValidLongitude(lon.value) ==> r.success)
  {
    var t := Text.Strip(s);
    assert ',' in t by { CommaCounted(t); }
  }

  /** A character that is counted occurs. */
  lemma {:induction false} CommaCounted(t: string)
    requires Text.CountChar(t, ',') > 0
    ensures ',' in t
    decreases |t|
  {
    if t[0] != ',' {
      CommaCounted(t[1..]);
      var i :| 0 <= i < |t[1..]| && t[1..][i] == ',';
      assert t[i + 1] == ',';
    }
  }

  // ---------------------------------------------------------------------------------------
  // suggest_similar_cities

  /** `input_lower in city_key or any(word in city_key for word in input_lower.split())`. */
  predicate CityMatches(inputLower: string, key: string) {
    Text.Contains(key, inputLower) || exists w :: w in Text.Words(inputLower) && Text.Contains(key, w)
  }

  function SuggestionFor(inputLower: string): City -> Option<string> {
    (c: City) => if CityMatches(inputLower, c.key) then Some(c.displayName) else None
  }

  /** The display names of the matching cities, in table order, repeats included. */
  function Matches(cities: seq<City>, inputLower: string): seq<string> {
    Seqs.FilterMap(cities, SuggestionFor(inputLower))
  }

  /** `suggest_similar_cities`. */
  method SuggestSimilarCities(cities: seq<City>, input: string, maxSuggestions: int := 5) returns (suggested: seq<string>)
    ensures suggested == Seqs.TakePy(Seqs.Dedup(Matches(cities, Text.Lower(input))), maxSuggestions)
  {
    var inputLower := Text.Lower(input);
    var suggestions: seq<string> := [];
    for i := 0 to |cities|
      invariant suggestions == Matches(cities[..i], inputLower)
    {
      var city := cities[i];
      if Text.Contains(city.key, inputLower) || exists w :: w in Text.Words(inputLower) && Text.Contains(city.key, w) {
        suggestions := suggestions + [city.displayName];
      }
      assert cities[..i + 1] == cities[..i] + [city];
      Seqs.FilterMapAppend(cities[..i], city, SuggestionFor(inputLower));
    }
    assert cities[..|cities|] == cities;
    var uniqueSuggestions := Seqs.Dedup(suggestions);
    suggested := Seqs.TakePy(uniqueSuggestions, maxSuggestions);
  }

  /** The distinct names the first k cities match come first among any leading part of the
      de-duplicated matches that is at least as long. */
  lemma SuggestionOrder(cities: seq<City>, inputLower: string, r: seq<string>)
    requires |r| <= |Seqs.Dedup(Matches(cities, inputLower))| && r == Seqs.Dedup(Matches(cities, inputLower))[..|r|]
    ensures forall k :: 0 <= k <= |cities| && |Seqs.Dedup(Matches(cities[..k], inputLower))| <= |r| ==>
              Seqs.Dedup(Matches(cities[..k], inputLower)) <= r
  {
    var m := Matches(cities, inputLower);
    forall k | 0 <= k <= |cities| && |Seqs.Dedup(Matches(cities[..k], inputLower))| <= |r|
      ensures Seqs.Dedup(Matches(cities[..k], inputLower)) <= r
    {
      Seqs.FilterMapPrefix(cities, SuggestionFor(inputLower), k);
      var j := |Matches(cities[..k], inputLower)|;
      assert Matches(cities[..k], inputLower) == m[..j];
      Seqs.DedupPrefix(m, j);
    }
  }

  /** The suggestions are distinct display names of matching cities, at most
      `max_suggestions` of them, in the order of their first match: the distinct names the
      first k cities match, when there are no more of them than suggestions, are the first
      suggestions, in order. When the limit is not reached, every matching city is
      represented. */
  lemma SuggestionsSpec(cities: seq<City>, input: string, maxSuggestions: int)
    ensures var inputLower := Text.Lower(input);
            var unique := Seqs.Dedup(Matches(cities, inputLower));
            var r := Seqs.TakePy(unique, maxSuggestions);
            && Seqs.Distinct(r)
            && (maxSuggestions >= 0 ==> |r| <= maxSuggestions)
            && r == unique[..|r|]
            && Seqs.IsSubsequence(unique, Matches(cities, inputLower))
            && (forall x :: x in r ==> exists i :: 0 <= i < |cities| && CityMatches(inputLower, cities[i].key) && cities[i].displayName == x)
            && (maxSuggestions >= |unique| ==>
                  forall i :: 0 <= i < |cities| && CityMatches(inputLower, cities[i].key) ==> cities[i].displayName in r)
            && (forall k :: 0 <= k <= |cities| && |Seqs.Dedup(Matches(cities[..k], inputLower))| <= |r| ==>
                  Seqs.Dedup(Matches(cities[..k], inputLower)) <= r)
  {
    var inputLower := Text.Lower(input);
    var m := Matches(cities, inputLower);
    var unique := Seqs.Dedup(m);
    var r := Seqs.TakePy(unique, maxSuggestions);
    Seqs.DedupSpec(m);
    Seqs.FilterMapMembers(cities, SuggestionFor(inputLower));
    forall x | x in r
      ensures exists i :: 0 <= i < |cities| && CityMatches(inputLower, cities[i].key) && cities[i].displayName == x
    {
      var k :| 0 <= k < |r| && r[k] == x;
      assert unique[k] == x;
      assert x in m;
      var i :| 0 <= i < |cities| && SuggestionFor(inputLower)(cities[i]) == Some(x);
    }
    SuggestionOrder(cities, inputLower, r);
    if maxSuggestions >= |unique| {
      assert r == unique;
      forall i | 0 <= i < |cities| && CityMatches(inputLower, cities[i].key) ensures cities[i].displayName in r {
        assert SuggestionFor(inputLower)(cities[i]) == Some(cities[i].displayName);
      }
    }
  }

  // ---------------------------------------------------------------------------------------
  // validate_location_for_astronomy and get_location_info

  datatype Suitability = Suitable | TooCloseToPole(latitude: real) | NullIsland

  /** `validate_location_for_astronomy`: rejects latitudes beyond 85 degrees, then locations
      within 0.1 degrees of (0, 0); accepts all others. */
  function ValidateLocationForAstronomy(location: ObserverLocation): (r: Suitability)
    ensures r.Suitable? <==>
              Angles.Abs(location.latitude) <= 85.0 &&
              !(Angles.Abs(location.latitude) < 0.1 && Angles.Abs(location.longitude) < 0.1)
    ensures r.TooCloseToPole? <==> Angles.Abs(location.latitude) > 85.0
    ensures r.TooCloseToPole? ==> r.latitude == location.latitude
  {
    if Angles.Abs(location.latitude) > 85.0 then TooCloseToPole(location.latitude)
    else if Angles.Abs(location.latitude) < 0.1 && Angles.Abs(location.longitude) < 0.1 then NullIsland
    else Suitable
  }

  /** The check treats a location and its mirror image through the Earth's centre alike. */
  lemma SuitabilitySymmetric(a: ObserverLocation, b: ObserverLocation)
    requires Angles.Abs(a.latitude) == Angles.Abs(b.latitude) && Angles.Abs(a.longitude) == Angles.Abs(b.longitude)
    ensures ValidateLocationForAstronomy(a).Suitable? == ValidateLocationForAstronomy(b).Suitable?
    ensures ValidateLocationForAstronomy(a).NullIsland? == ValidateLocationForAstronomy(b).NullIsland?
  {
  }

  datatype LatitudeHemisphere = Northern | Southern
  datatype LongitudeHemisphere = Eastern | Western
  datatype ClimateZone = Tropical | Subtropical | Temperate | Subarctic | Arctic
  /** The three visibility notes, from "both northern and southern sky objects" to "many
      circumpolar stars, very limited southern sky". */
  datatype SkyView = BothSkies | SomeCircumpolar | ManyCircumpolar

  /** `get_location_info` without the two formatted DMS strings. */
  datatype LocationInfo = LocationInfo(
    latitudeHemisphere: LatitudeHemisphere,
    longitudeHemisphere: LongitudeHemisphere,
    climateZone: ClimateZone,
    visibility: SkyView)

  function ClimateZoneOf(absLatitude: real): ClimateZone {
    if absLatitude <= 23.5 then Tropical
    else if absLatitude <= 35.0 then Subtropical
    else if absLatitude <= 50.0 then Temperate
    else if absLatitude <= 66.5 then Subarctic
    else Arctic
  }

  function SkyViewOf(absLatitude: real): SkyView {
    if absLatitude <= 35.0 then BothSkies
    else if absLatitude <= 55.0 then SomeCircumpolar
    else ManyCircumpolar
  }

  function GetLocationInfo(location: ObserverLocation): (info: LocationInfo)
    ensures info.latitudeHemisphere == Northern <==> location.latitude >= 0.0
    ensures info.longitudeHemisphere == Eastern <==> location.longitude >= 0.0
  {
    var absLatitude := Angles.Abs(location.latitude);
    LocationInfo(
      if location.latitude >= 0.0 then Northern else Southern,
      if location.longitude >= 0.0 then Eastern else Western,
      ClimateZoneOf(absLatitude),
      SkyViewOf(absLatitude))
  }

  function ZoneRank(z: ClimateZone): nat {
    match z
    case Tropical => 0
    case Subtropical => 1
    case Temperate => 2
    case Subarctic => 3
    case Arctic => 4
  }

  function ViewRank(v: SkyView): nat {
    match v
    case BothSkies => 0
    case SomeCircumpolar => 1
    case ManyCircumpolar => 2
  }

  /** Zones and visibility notes move poleward together: further from the equator never
      gives a lower zone or a wider view of the opposite sky, and both depend on the
      distance from the equator only. */
  lemma ZonesMonotone(a: ObserverLocation, b: ObserverLocation)
    requires Angles.Abs(a.latitude) <= Angles.Abs(b.latitude)
    ensures ZoneRank(GetLocationInfo(a).climateZone) <= ZoneRank(GetLocationInfo(b).climateZone)
    ensures ViewRank(GetLocationInfo(a).visibility) <= ViewRank(GetLocationInfo(b).visibility)
  {
  }

  /** Both skies are visible exactly in the tropical and subtropical zones, and the view with
      many circumpolar stars lies in the subarctic or arctic zone. */
  lemma ZonesAgree(location: ObserverLocation)
    ensures var info := GetLocationInfo(location);
            && (info.visibility == BothSkies <==> info.climateZone == Tropical || info.climateZone == Subtropical)
            && (info.visibility == ManyCircumpolar ==> info.climateZone == Subarctic || info.climateZone == Arctic)
  {
  }
}
