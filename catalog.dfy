/** The star-catalog pipeline: each CSV row is parsed into a raw entry, validated, and
    converted into a `StellarObject`; rejected rows become error records. Then come the
    order-preserving filters, the stable sorts and their composition. Reading the file is not
    part of the model: the pipeline takes the rows `csv.DictReader` would yield. */
module Catalog {
  import opened Wrappers
  import opened Models
  import Text
  import Seqs
  import Sorting

  // ---------------------------------------------------------------------------------------
  // Rows and entries

  /** A numeric CSV field: missing from the row (`row.get(key, 0)` gives 0), text that
      `float()` accepts (with its value), or text on which it raises ValueError. */
  datatype NumberField = Absent | Parsed(value: real) | Unparsable

  /** A CSV row as `csv.DictReader` yields it; a text field is None when its column is absent. */
  datatype RawRow = RawRow(
    name: Option<string>,
    raHours: NumberField,
    decDegrees: NumberField,
    magnitude: NumberField,
    spectralType: Option<string>,
    constellation: Option<string>)

  /** `CatalogEntry`: a parsed but not yet validated row. */
  datatype CatalogEntry = CatalogEntry(
    name: string,
    raHours: real,
    decDegrees: real,
    magnitude: real,
    spectralType: string,
    constellation: string)

  /** `row.get(key, '').strip()`. */
  function TextField(field: Option<string>): string {
    Text.Strip(if field.Some? then field.value else "")
  }

  /** `float(row.get(key, 0))` when it does not raise. */
  function NumberValue(field: NumberField): real
    requires !field.Unparsable?
  {
    if field.Parsed? then field.value else 0.0
  }

  /** `parse_catalog_entry`: None when one of the three numeric fields is not a number; an
      absent numeric column reads as 0 and an absent text column as the empty string. */
  function ParseCatalogEntry(row: RawRow): (r: Option<CatalogEntry>)
    ensures r.None? <==> row.raHours.Unparsable? || row.decDegrees.Unparsable? || row.magnitude.Unparsable?
    ensures r.Some? ==>
              && r.value.raHours == (if row.raHours.Parsed? then row.raHours.value else 0.0)
              && r.value.decDegrees == (if row.decDegrees.Parsed? then row.decDegrees.value else 0.0)
              && r.value.magnitude == (if row.magnitude.Parsed? then row.magnitude.value else 0.0)
              && r.value.name == TextField(row.name)
              && r.value.spectralType == TextField(row.spectralType)
              && r.value.constellation == TextField(row.constellation)
  {
    if row.raHours.Unparsable? || row.decDegrees.Unparsable? || row.magnitude.Unparsable? then None
    else
      Some(CatalogEntry(
        TextField(row.name),
        NumberValue(row.raHours),
        NumberValue(row.decDegrees),
        NumberValue(row.magnitude),
        TextField(row.spectralType),
        TextField(row.constellation)))
  }

  // ---------------------------------------------------------------------------------------
  // Validation

  /** One failed check of `validate_catalog_entry`; the out-of-range ones carry the value
      their message prints. */
  datatype Problem =
    | MissingName
    | RaNotInRange(raHours: real)
    | DecNotInRange(decDegrees: real)
    | MagnitudeNotInRange(magnitude: real)
    | MissingConstellation

  /** Position of a check in the order the source makes them. */
  function Rank(p: Problem): nat {
    match p
    case MissingName => 0
    case RaNotInRange(_) => 1
    case DecNotInRange(_) => 2
    case MagnitudeNotInRange(_) => 3
    case MissingConstellation => 4
  }

  /** The entry fails the check behind p, and p carries the entry's value. */
  predicate Reports(entry: CatalogEntry, p: Problem) {
    match p
    case MissingName => entry.name == ""
    case RaNotInRange(v) => v == entry.raHours && !(0.0 <= entry.raHours <= 24.0)
    case DecNotInRange(v) => v == entry.decDegrees && !(-90.0 <= entry.decDegrees <= 90.0)
    case MagnitudeNotInRange(v) => v == entry.magnitude && !(-2.0 <= entry.magnitude <= 7.0)
    case MissingConstellation => entry.constellation == ""
  }

  /** The failing checks, in order: what the source joins with "; " into its message. */
  function Problems(entry: CatalogEntry): seq<Problem> {
    (if entry.name == "" then [MissingName] else [])
    + (if !(0.0 <= entry.raHours <= 24.0) then [RaNotInRange(entry.raHours)] else [])
    + (if !(-90.0 <= entry.decDegrees <= 90.0) then [DecNotInRange(entry.decDegrees)] else [])
    + (if !(-2.0 <= entry.magnitude <= 7.0) then [MagnitudeNotInRange(entry.magnitude)] else [])
    + (if entry.constellation == "" then [MissingConstellation] else [])
  }

  /** All five checks pass. */
  predicate Passes(entry: CatalogEntry) {
    && entry.name != ""
    && 0.0 <= entry.raHours <= 24.0
    && -90.0 <= entry.decDegrees <= 90.0
    && -2.0 <= entry.magnitude <= 7.0
    && entry.constellation != ""
  }

  /** The entry is valid iff no check fails; every failing check is reported, once and in the
      order of the checks, and nothing else is. */
  lemma ProblemsSpec(entry: CatalogEntry)
    ensures Problems(entry) == [] <==> Passes(entry)
    ensures forall p :: p in Problems(entry) <==> Reports(entry, p)
    ensures forall i, j :: 0 <= i < j < |Problems(entry)| ==> Rank(Problems(entry)[i]) < Rank(Problems(entry)[j])
  {
  }

  /** `validate_catalog_entry`: the checks append to a list of problems in turn; the entry is
      valid when the list stays empty. */
  method ValidateCatalogEntry(entry: CatalogEntry) returns (valid: bool, problems: seq<Problem>)
    ensures problems == Problems(entry)
    ensures valid <==> Passes(entry)
  {
    var nameProblem := if entry.name == "" then [MissingName] else [];
    var raProblem := if !(0.0 <= entry.raHours <= 24.0) then [RaNotInRange(entry.raHours)] else [];
    var decProblem := if !(-90.0 <= entry.decDegrees <= 90.0) then [DecNotInRange(entry.decDegrees)] else [];
    var magnitudeProblem := if !(-2.0 <= entry.magnitude <= 7.0) then [MagnitudeNotInRange(entry.magnitude)] else [];
    problems := [];
    if entry.name == "" {
      problems := problems + [MissingName];
    }
    assert problems == nameProblem;
    if !(0.0 <= entry.raHours <= 24.0) {
      problems := problems + [RaNotInRange(entry.raHours)];
    }
    assert problems == nameProblem + raProblem;
    if !(-90.0 <= entry.decDegrees <= 90.0) {
      problems := problems + [DecNotInRange(entry.decDegrees)];
    }
    assert problems == nameProblem + raProblem + decProblem;
    if !(-2.0 <= entry.magnitude <= 7.0) {
      problems := problems + [MagnitudeNotInRange(entry.magnitude)];
    }
    assert problems == nameProblem + raProblem + decProblem + magnitudeProblem;
    if entry.constellation == "" {
      problems := problems + [MissingConstellation];
    }
    valid := |problems| == 0;
  }

  /** `catalog_entry_to_stellar_object`: called only on validated entries, for which the
      `StellarObject` constructor cannot raise; all six fields are copied unchanged. */
  function ToStellarObject(entry: CatalogEntry): (star: StellarObject)
    requires Passes(entry)
    ensures NewStellarObject(entry.name, entry.raHours, entry.decDegrees, entry.magnitude,
                             entry.spectralType, entry.constellation) == Built(star)
  {
    StarRecord(entry.name, entry.raHours, entry.decDegrees, entry.magnitude, entry.spectralType, entry.constellation)
  }

  // ---------------------------------------------------------------------------------------
  // The row loop of process_star_catalog

  /** An error list entry; `rowNumber` is the 1-based row count the message starts with. */
  datatype RowError =
    | ParseFailed(rowNumber: nat)
    | Invalid(rowNumber: nat, name: string, problems: seq<Problem>)

  /** `ParseResult`. */
  datatype ParseResult = ParseResult(
    success: bool,
    data: Option<seq<StellarObject>>,
    errors: seq<RowError>,
    totalRecords: nat,
    validRecords: nat)

  /** The star a row contributes, if it parses and validates. */
  function RowStar(row: RawRow): Option<StellarObject> {
    match ParseCatalogEntry(row)
    case None => None
    case Some(entry) => if Passes(entry) then Some(ToStellarObject(entry)) else None
  }

  /** The error a row contributes as row number `rowNumber`, if it is rejected. */
  function RowFailure(row: RawRow, rowNumber: nat): Option<RowError> {
    match ParseCatalogEntry(row)
    case None => Some(ParseFailed(rowNumber))
    case Some(entry) => if Passes(entry) then None else Some(Invalid(rowNumber, entry.name, Problems(entry)))
  }

  /** Every row is either converted or reported, never both. */
  lemma RowLandsOnce(row: RawRow, rowNumber: nat)
    ensures RowStar(row).Some? <==> RowFailure(row, rowNumber).None?
    ensures RowFailure(row, rowNumber).Some? ==> RowFailure(row, rowNumber).value.rowNumber == rowNumber
  {
  }

  /** The stars the loop collects from rows, in row order. */
  function Objects(rows: seq<RawRow>): seq<StellarObject> {
    Seqs.FilterMap(rows, RowStar)
  }

  /** The errors the loop collects from rows, in row order, numbered from 1. */
  function Errors(rows: seq<RawRow>): seq<RowError> {
    if |rows| == 0 then []
    else
      var rest := Errors(rows[..|rows| - 1]);
      match RowFailure(rows[|rows| - 1], |rows|)
      case None => rest
      case Some(e) => rest + [e]
  }

  /** Each row lands in exactly one of the two lists. */
  lemma {:induction false} CountsAddUp(rows: seq<RawRow>)
    ensures |Objects(rows)| + |Errors(rows)| == |rows|
  {
    if |rows| > 0 {
      CountsAddUp(rows[..|rows| - 1]);
      RowLandsOnce(rows[|rows| - 1], |rows|);
    }
  }

  /** Every listed error names a rejected row. */
  lemma {:induction false} ErrorsAreRejectedRows(rows: seq<RawRow>)
    ensures forall e :: e in Errors(rows) ==> 1 <= e.rowNumber <= |rows| && RowStar(rows[e.rowNumber - 1]).None?
  {
    if |rows| > 0 {
      var init := rows[..|rows| - 1];
      ErrorsAreRejectedRows(init);
      RowLandsOnce(rows[|rows| - 1], |rows|);
      forall e | e in Errors(rows) ensures 1 <= e.rowNumber <= |rows| && RowStar(rows[e.rowNumber - 1]).None? {
        if e in Errors(init) {
          assert rows[e.rowNumber - 1] == init[e.rowNumber - 1];
        }
      }
    }
  }

  /** The errors are listed in increasing row order, so no row is reported twice. */
  lemma {:induction false} ErrorsIncreasing(rows: seq<RawRow>)
    ensures forall j, j' :: 0 <= j < j' < |Errors(rows)| ==> Errors(rows)[j].rowNumber < Errors(rows)[j'].rowNumber
  {
    if |rows| > 0 {
      var init := rows[..|rows| - 1];
      ErrorsIncreasing(init);
      ErrorsAreRejectedRows(init);
      var e, ei := Errors(rows), Errors(init);
      if |e| > |ei| {
        forall j | 0 <= j < |ei| ensures e[j].rowNumber < e[|e| - 1].rowNumber {
          assert e[j] == ei[j] && ei[j] in ei;
        }
      }
    }
  }

  /** Every rejected row is listed. */
  lemma {:induction false} ErrorsComplete(rows: seq<RawRow>)
    ensures forall i :: 0 <= i < |rows| && RowStar(rows[i]).None? ==> exists e :: e in Errors(rows) && e.rowNumber == i + 1
  {
    if |rows| > 0 {
      var init := rows[..|rows| - 1];
      ErrorsComplete(init);
      RowLandsOnce(rows[|rows| - 1], |rows|);
      forall i | 0 <= i < |rows| && RowStar(rows[i]).None? ensures exists e :: e in Errors(rows) && e.rowNumber == i + 1 {
        if i < |init| {
          assert init[i] == rows[i];
          var e :| e in Errors(init) && e.rowNumber == i + 1;
          assert e in Errors(rows);
        } else {
          var e := RowFailure(rows[i], |rows|).value;
          assert e in Errors(rows);
        }
      }
    }
  }

  /** The collected stars are exactly the conversions of the accepted rows. */
  lemma ObjectsSpec(rows: seq<RawRow>)
    ensures forall star :: star in Objects(rows) <==> exists i :: 0 <= i < |rows| && RowStar(rows[i]) == Some(star)
  {
    Seqs.FilterMapMembers(rows, RowStar);
  }

  /** A row whose name is blank (empty or whitespace only) is never converted. */
  lemma BlankNameRejected(row: RawRow)
    requires row.name.Some? ==> Text.AllSpace(row.name.value)
    ensures RowStar(row).None?
    ensures ParseCatalogEntry(row).Some? ==> MissingName in RowFailure(row, 1).value.problems
  {
    Text.StripEmpty(if row.name.Some? then row.name.value else "");
    if ParseCatalogEntry(row).Some? {
      ProblemsSpec(ParseCatalogEntry(row).value);
    }
  }

  /** One more row of the loop. */
  lemma LoopStep(rows: seq<RawRow>, i: nat)
    requires i < |rows|
    ensures Objects(rows[..i + 1]) == Objects(rows[..i]) + (if RowStar(rows[i]).Some? then [RowStar(rows[i]).value] else [])
    ensures Errors(rows[..i + 1]) == Errors(rows[..i]) + (if RowFailure(rows[i], i + 1).Some? then [RowFailure(rows[i], i + 1).value] else [])
  {
    assert rows[..i + 1] == rows[..i] + [rows[i]];
    Seqs.FilterMapAppend(rows[..i], rows[i], RowStar);
    assert rows[..i + 1][..i] == rows[..i];
  }

  /** `process_star_catalog` after the file check: counts every row, collects the converted
      stars and the errors in row order, and reports success iff some star was produced. */
  method ProcessStarCatalog(rows: seq<RawRow>) returns (result: ParseResult)
    ensures result.totalRecords == |rows|
    ensures result.errors == Errors(rows)
    ensures result.data == if Objects(rows) == [] then None else Some(Objects(rows))
    ensures result.validRecords == |Objects(rows)|
    ensures result.validRecords + |result.errors| == result.totalRecords
    ensures result.success <==> result.data.Some?
  {
    var stellarObjects: seq<StellarObject> := [];
    var errors: seq<RowError> := [];
    var totalRecords: nat := 0;
    var validRecords: nat := 0;
    for i := 0 to |rows|
      invariant totalRecords == i
      invariant stellarObjects == Objects(rows[..i])
      invariant errors == Errors(rows[..i])
      invariant validRecords == |stellarObjects|
    {
      var row := rows[i];
      totalRecords := totalRecords + 1;
      LoopStep(rows, i);
      var entry := ParseCatalogEntry(row);
      if entry.None? {
        errors := errors + [ParseFailed(totalRecords)];
      } else {
        var valid, problems := ValidateCatalogEntry(entry.value);
        if !valid {
          errors := errors + [Invalid(totalRecords, entry.value.name, problems)];
        } else {
          stellarObjects := stellarObjects + [ToStellarObject(entry.value)];
          validRecords := validRecords + 1;
        }
      }
    }
    assert rows[..|rows|] == rows;
    CountsAddUp(rows);
    result := ParseResult(
      |stellarObjects| > 0,
      if |stellarObjects| > 0 then Some(stellarObjects) else None,
      errors,
      totalRecords,
      validRecords);
  }

  // ---------------------------------------------------------------------------------------
  // Filters

  function AtMostMagnitude(limit: real): StellarObject -> bool {
    (star: StellarObject) => star.magnitude <= limit
  }

  function AtLeastMagnitude(limit: real): StellarObject -> bool {
    (star: StellarObject) => star.magnitude >= limit
  }

  /** `filter_by_magnitude`: the upper bound first, then the lower one, each only when given. */
  function FilterByMagnitude(stars: seq<StellarObject>, maxMagnitude: Option<real> := None, minMagnitude: Option<real> := None): seq<StellarObject> {
    var filtered := if maxMagnitude.Some? then Seqs.Filter(stars, AtMostMagnitude(maxMagnitude.value)) else stars;
    if minMagnitude.Some? then Seqs.Filter(filtered, AtLeastMagnitude(minMagnitude.value)) else filtered
  }

  /** The star satisfies every magnitude bound that is given. */
  function WithinMagnitudes(maxMagnitude: Option<real>, minMagnitude: Option<real>): StellarObject -> bool {
    (star: StellarObject) =>
      && (maxMagnitude.Some? ==> star.magnitude <= maxMagnitude.value)
      && (minMagnitude.Some? ==> star.magnitude >= minMagnitude.value)
  }

  /** The two passes of the magnitude filter are one pass with both bounds. */
  lemma FilterByMagnitudeSpec(stars: seq<StellarObject>, maxMagnitude: Option<real>, minMagnitude: Option<real>)
    ensures FilterByMagnitude(stars, maxMagnitude, minMagnitude) == Seqs.Filter(stars, WithinMagnitudes(maxMagnitude, minMagnitude))
    ensures maxMagnitude.None? && minMagnitude.None? ==> FilterByMagnitude(stars, maxMagnitude, minMagnitude) == stars
  {
    var w := WithinMagnitudes(maxMagnitude, minMagnitude);
    if maxMagnitude.Some? && minMagnitude.Some? {
      Seqs.FilterTwice(stars, AtMostMagnitude(maxMagnitude.value), AtLeastMagnitude(minMagnitude.value), w);
    } else if maxMagnitude.Some? {
      Seqs.FilterExt(stars, AtMostMagnitude(maxMagnitude.value), w);
    } else if minMagnitude.Some? {
      Seqs.FilterExt(stars, AtLeastMagnitude(minMagnitude.value), w);
    } else {
      Seqs.FilterAll(stars, w);
    }
  }

  /** The star's constellation contains the query, both lowercased. */
  function InConstellation(queryLower: string): StellarObject -> bool {
    (star: StellarObject) => Text.Contains(Text.Lower(star.constellation), queryLower)
  }

  /** `filter_by_constellation`: case-insensitive substring match; no query keeps all stars. */
  function FilterByConstellation(stars: seq<StellarObject>, constellation: Option<string> := None): seq<StellarObject> {
    if constellation.None? then stars
    else Seqs.Filter(stars, InConstellation(Text.Lower(constellation.value)))
  }

  function MatchesConstellation(constellation: Option<string>): StellarObject -> bool {
    (star: StellarObject) =>
      constellation.Some? ==> Text.Contains(Text.Lower(star.constellation), Text.Lower(constellation.value))
  }

  /** With a query, exactly the stars whose lowercased constellation contains the lowercased
      query are kept, each as often as it occurs and in input order; without one, all are. */
  lemma FilterByConstellationSpec(stars: seq<StellarObject>, constellation: Option<string>)
    ensures FilterByConstellation(stars, constellation) == Seqs.Filter(stars, MatchesConstellation(constellation))
    ensures constellation.None? ==> FilterByConstellation(stars, constellation) == stars
    ensures constellation.Some? ==>
              var r := FilterByConstellation(stars, constellation);
              var q := Text.Lower(constellation.value);
              && Seqs.IsSubsequence(r, stars)
              && (forall x :: x in r <==> x in stars && Text.Contains(Text.Lower(x.constellation), q))
              && (forall x :: multiset(r)[x] ==
                    if Text.Contains(Text.Lower(x.constellation), q) then multiset(stars)[x] else 0)
  {
    if constellation.Some? {
      Seqs.FilterExt(stars, InConstellation(Text.Lower(constellation.value)), MatchesConstellation(constellation));
      Seqs.FilterKeepsExactly(stars, InConstellation(Text.Lower(constellation.value)));
    } else {
      Seqs.FilterAll(stars, MatchesConstellation(constellation));
    }
  }

  /** `[t.upper() for t in spectral_types]`. */
  function UpperAll(types: seq<string>): (r: seq<string>)
    ensures |r| == |types|
    ensures forall i :: 0 <= i < |types| ==> r[i] == Text.Upper(types[i])
  {
    seq(|types|, i requires 0 <= i < |types| => Text.Upper(types[i]))
  }

  /** The star has a spectral type whose first letter, uppercased, is one of the codes. */
  function HasSpectralClass(typesUpper: seq<string>): StellarObject -> bool {
    (star: StellarObject) => star.spectralType != "" && Text.Upper(star.spectralType[..1]) in typesUpper
  }

  /** `filter_by_spectral_type`: a None or empty list keeps all stars. */
  function FilterBySpectralType(stars: seq<StellarObject>, spectralTypes: Option<seq<string>> := None): seq<StellarObject> {
    if spectralTypes.None? || spectralTypes.value == [] then stars
    else Seqs.Filter(stars, HasSpectralClass(UpperAll(spectralTypes.value)))
  }

  function MatchesSpectralType(spectralTypes: Option<seq<string>>): StellarObject -> bool {
    (star: StellarObject) =>
      spectralTypes.Some? && spectralTypes.value != [] ==>
        star.spectralType != "" &&
        exists t :: t in spectralTypes.value && Text.Upper(t) == Text.Upper(star.spectralType[..1])
  }

  lemma FilterBySpectralTypeSpec(stars: seq<StellarObject>, spectralTypes: Option<seq<string>>)
    ensures FilterBySpectralType(stars, spectralTypes) == Seqs.Filter(stars, MatchesSpectralType(spectralTypes))
    ensures spectralTypes.None? || spectralTypes.value == [] ==> FilterBySpectralType(stars, spectralTypes) == stars
  {
    var m := MatchesSpectralType(spectralTypes);
    if spectralTypes.None? || spectralTypes.value == [] {
      Seqs.FilterAll(stars, m);
    } else {
      var ts := spectralTypes.value;
      var h := HasSpectralClass(UpperAll(ts));
      forall star: StellarObject ensures h(star) == m(star) {
        if h(star) {
          var i :| 0 <= i < |ts| && UpperAll(ts)[i] == Text.Upper(star.spectralType[..1]);
          assert ts[i] in ts;
        }
        if m(star) {
          var t :| t in ts && Text.Upper(t) == Text.Upper(star.spectralType[..1]);
          var i :| 0 <= i < |ts| && ts[i] == t;
          assert UpperAll(ts)[i] == Text.Upper(t);
        }
      }
      Seqs.FilterExt(stars, h, m);
    }
  }

  /** `apply_filters`: magnitude, then constellation, then spectral type. */
  function ApplyFilters(
    stars: seq<StellarObject>, maxMagnitude: Option<real> := None, minMagnitude: Option<real> := None,
    constellation: Option<string> := None, spectralTypes: Option<seq<string>> := None): seq<StellarObject>
  {
    var result := FilterByMagnitude(stars, maxMagnitude, minMagnitude);
    var result' := FilterByConstellation(result, constellation);
    FilterBySpectralType(result', spectralTypes)
  }

  /** The star passes all three filters. */
  function PassesAll(
    maxMagnitude: Option<real>, minMagnitude: Option<real>,
    constellation: Option<string>, spectralTypes: Option<seq<string>>): StellarObject -> bool
  {
    (star: StellarObject) =>
      && WithinMagnitudes(maxMagnitude, minMagnitude)(star)
      && MatchesConstellation(constellation)(star)
      && MatchesSpectralType(spectralTypes)(star)
  }

  /** The three filters in sequence are one filter by all three conditions. */
  lemma ApplyFiltersIsOneFilter(
    stars: seq<StellarObject>, maxMagnitude: Option<real>, minMagnitude: Option<real>,
    constellation: Option<string>, spectralTypes: Option<seq<string>>)
    ensures ApplyFilters(stars, maxMagnitude, minMagnitude, constellation, spectralTypes)
         == Seqs.Filter(stars, PassesAll(maxMagnitude, minMagnitude, constellation, spectralTypes))
  {
    var w := WithinMagnitudes(maxMagnitude, minMagnitude);
    var c := MatchesConstellation(constellation);
    var s := MatchesSpectralType(spectralTypes);
    var wc := (star: StellarObject) => w(star) && c(star);
    var m := FilterByMagnitude(stars, maxMagnitude, minMagnitude);
    FilterByMagnitudeSpec(stars, maxMagnitude, minMagnitude);
    FilterByConstellationSpec(m, constellation);
    FilterBySpectralTypeSpec(FilterByConstellation(m, constellation), spectralTypes);
    Seqs.FilterTwice(stars, w, c, wc);
    Seqs.FilterTwice(stars, wc, s, PassesAll(maxMagnitude, minMagnitude, constellation, spectralTypes));
  }

  /** The composed filters keep exactly the stars that pass all three, as often as they occur
      and in their original order. */
  lemma ApplyFiltersSpec(
    stars: seq<StellarObject>, maxMagnitude: Option<real>, minMagnitude: Option<real>,
    constellation: Option<string>, spectralTypes: Option<seq<string>>)
    ensures var r := ApplyFilters(stars, maxMagnitude, minMagnitude, constellation, spectralTypes);
            var pass := PassesAll(maxMagnitude, minMagnitude, constellation, spectralTypes);
            && Seqs.IsSubsequence(r, stars)
            && (forall x :: multiset(r)[x] == if pass(x) then multiset(stars)[x] else 0)
  {
    ApplyFiltersIsOneFilter(stars, maxMagnitude, minMagnitude, constellation, spectralTypes);
    Seqs.FilterKeepsExactly(stars, PassesAll(maxMagnitude, minMagnitude, constellation, spectralTypes));
  }

  // ---------------------------------------------------------------------------------------
  // Sorts

  /** Key order of `sort_by_brightness`: by magnitude, brightest first. */
  function BrighterOrEqual(a: StellarObject, b: StellarObject): bool {
    a.magnitude <= b.magnitude
  }

  /** Key order of `sort_by_name`. */
  function NameOrder(a: StellarObject, b: StellarObject): bool {
    Text.LexLe(a.name, b.name)
  }

  /** Key order of `sort_by_constellation`: the tuple (constellation, magnitude). */
  function ConstellationOrder(a: StellarObject, b: StellarObject): bool {
    Text.LexLt(a.constellation, b.constellation) || (a.constellation == b.constellation && a.magnitude <= b.magnitude)
  }

  function SortByBrightness(stars: seq<StellarObject>): seq<StellarObject> {
    Sorting.InsertionSort(stars, BrighterOrEqual)
  }

  function SortByName(stars: seq<StellarObject>): seq<StellarObject> {
    Sorting.InsertionSort(stars, NameOrder)
  }

  function SortByConstellation(stars: seq<StellarObject>): seq<StellarObject> {
    Sorting.InsertionSort(stars, ConstellationOrder)
  }

  lemma NameOrderIsPreorder()
    ensures Sorting.TotalPreorder(NameOrder)
  {
    forall a: StellarObject, b: StellarObject ensures NameOrder(a, b) || NameOrder(b, a) {
      Text.LexLeTotal(a.name, b.name);
    }
    forall a: StellarObject, b: StellarObject, c: StellarObject | NameOrder(a, b) && NameOrder(b, c)
      ensures NameOrder(a, c)
    {
      Text.LexLeTransitive(a.name, b.name, c.name);
    }
  }

  lemma ConstellationOrderIsPreorder()
    ensures Sorting.TotalPreorder(ConstellationOrder)
  {
    forall a: StellarObject, b: StellarObject ensures ConstellationOrder(a, b) || ConstellationOrder(b, a) {
      Text.LexLeTotal(a.constellation, b.constellation);
    }
    forall a: StellarObject, b: StellarObject, c: StellarObject | ConstellationOrder(a, b) && ConstellationOrder(b, c)
      ensures ConstellationOrder(a, c)
    {
      var x, y, z := a.constellation, b.constellation, c.constellation;
      if Text.LexLt(x, y) && Text.LexLt(y, z) {
        Text.LexLeTransitive(x, y, z);
        if x == z { Text.LexLeAntisymmetric(x, y); }
      }
    }
  }

  /** Brightest first, a permutation, and stars of equal magnitude keep their order. */
  lemma SortByBrightnessSpec(stars: seq<StellarObject>)
    ensures Sorting.SortedBy(SortByBrightness(stars), BrighterOrEqual)
    ensures Sorting.StablePermutation(SortByBrightness(stars), stars, BrighterOrEqual)
  {
    assert Sorting.TotalPreorder(BrighterOrEqual);
    Sorting.InsertionSortSpec(stars, BrighterOrEqual);
  }

  /** Alphabetical, a permutation, and stars of equal name keep their order. */
  lemma SortByNameSpec(stars: seq<StellarObject>)
    ensures Sorting.SortedBy(SortByName(stars), NameOrder)
    ensures Sorting.StablePermutation(SortByName(stars), stars, NameOrder)
  {
    NameOrderIsPreorder();
    Sorting.InsertionSortSpec(stars, NameOrder);
  }

  /** By constellation, then brightness, a permutation, and stable on equal keys. */
  lemma SortByConstellationSpec(stars: seq<StellarObject>)
    ensures Sorting.SortedBy(SortByConstellation(stars), ConstellationOrder)
    ensures Sorting.StablePermutation(SortByConstellation(stars), stars, ConstellationOrder)
  {
    ConstellationOrderIsPreorder();
    Sorting.InsertionSortSpec(stars, ConstellationOrder);
  }
}
