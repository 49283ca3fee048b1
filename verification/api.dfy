/** The HTTP layer of the backend, in its two versions: the listings of the
    fuel types and the prefectures, the date window every data endpoint
    resolves from its optional bounds, and the first version's per-date
    results over the database queries. The current day and the maximum
    window length are parameters.
 */
module Api {
  import opened Options
  import opened Calendar
  import opened Text
  import opened DateFormat
  import opened Enums
  import opened Grouping
  import opened Storage
  import opened Services

  // ---------------------------------------------------------------------
  // Listings
  // ---------------------------------------------------------------------

  /** One entry of a listing: `{'name': ..., 'description': ...}`. */
  datatype NameDescription = NameDescription(name: string, description: string)

  /** `fuel_types()`: one entry per member, in declaration order. */
  function FuelTypes(): seq<NameDescription> {
    var xs := AllFuelTypes();
    seq(|xs|, i requires 0 <= i < |xs| => NameDescription(FuelTypeName(xs[i]), FuelTypeDescription(xs[i])))
  }

  /** `prefectures()` of the current version: the member's name and its Greek description. */
  function Prefectures(): seq<NameDescription> {
    var xs := AllPrefectures();
    seq(|xs|, i requires 0 <= i < |xs| => NameDescription(PrefectureName(xs[i]), PrefectureDescription(xs[i])))
  }

  /** `prefectures()` of the first version, whose description is the member's value, that is its name again. */
  function PrefecturesByValue(): seq<NameDescription> {
    var xs := AllPrefectures();
    seq(|xs|, i requires 0 <= i < |xs| => NameDescription(PrefectureName(xs[i]), PrefectureName(xs[i])))
  }

  /** Every fuel type is listed once, at its declaration position, and each
      listed name reads back as the member it lists. */
  lemma FuelTypesListed()
    ensures |FuelTypes()| == 6
    ensures forall f: FuelType :: FuelTypeIndex(f) < 6 && FuelTypes()[FuelTypeIndex(f)] == NameDescription(FuelTypeName(f), FuelTypeDescription(f))
    ensures forall i :: 0 <= i < |FuelTypes()| ==> FuelTypeFromName(FuelTypes()[i].name) == Ok(FuelTypeAt(i))
  {
    FuelTypeOrder();
    forall f: FuelType
      ensures FuelTypeIndex(f) < 6 && FuelTypes()[FuelTypeIndex(f)] == NameDescription(FuelTypeName(f), FuelTypeDescription(f))
    {
      FuelTypeListed(f);
    }
    forall i | 0 <= i < |FuelTypes()|
      ensures FuelTypeFromName(FuelTypes()[i].name) == Ok(FuelTypeAt(i))
    {
      FuelTypeNameRoundTrip(AllFuelTypes()[i]);
    }
  }

  /** Every prefecture is listed once, at its declaration position, and each
      listed name reads back as the member it lists; the first version's
      listing has the same names. */
  lemma PrefecturesListed()
    ensures |Prefectures()| == 51 && |PrefecturesByValue()| == 51
    ensures forall x: Prefecture :: PrefectureIndex(x) < 51 && Prefectures()[PrefectureIndex(x)] == NameDescription(PrefectureName(x), PrefectureDescription(x))
    ensures forall i :: 0 <= i < 51 ==> PrefectureFromName(Prefectures()[i].name) == Ok(PrefectureAt(i))
    ensures forall i :: 0 <= i < 51 ==> PrefecturesByValue()[i] == NameDescription(Prefectures()[i].name, Prefectures()[i].name)
  {
    PrefectureOrder();
    forall x: Prefecture
      ensures PrefectureIndex(x) < 51 && Prefectures()[PrefectureIndex(x)] == NameDescription(PrefectureName(x), PrefectureDescription(x))
    {
      Enums.PrefectureListed(x);
    }
    forall i | 0 <= i < 51
      ensures PrefectureFromName(Prefectures()[i].name) == Ok(PrefectureAt(i))
    {
      PrefectureNameRoundTrip(AllPrefectures()[i]);
    }
  }

  // ---------------------------------------------------------------------
  // The date window
  // ---------------------------------------------------------------------

  /** `get_date_range(start_date, end_date)`, the same in both versions:
      with no bound the window ends today, with one bound it extends
      `maxDays` from it, and with both it keeps the end and is cut to
      `maxDays`; reversed bounds are a 400, and date arithmetic that leaves
      the calendar raises `OverflowError`. */
  function GetDateRange(start: Option<Date>, end: Option<Date>, today: Date, maxDays: nat): (r: Result<(Date, Date)>)
    ensures r == Err(HttpBadRequest) <==> start.Some? && end.Some? && Less(end.value, start.value)
    ensures r.Err? ==> r.error == HttpBadRequest || r.error == OverflowError
    ensures r == Err(OverflowError) <==>
      (start.None? && Ordinal(if end.Some? then end.value else today) - maxDays < 1)
      || (start.Some? && end.None? && Ordinal(start.value) + maxDays > MaxOrdinal)
    ensures r.Ok? ==> LessEq(r.value.0, r.value.1) && DaysBetween(r.value.0, r.value.1) <= maxDays
    ensures r.Ok? && end.Some? ==> r.value.1 == end.value
    ensures r.Ok? && start.None? && end.None? ==> r.value.1 == today
    ensures r.Ok? && start.Some? ==> LessEq(start.value, r.value.0)
    ensures r.Ok? && start.Some? && end.None? ==> r.value.0 == start.value
    ensures r.Ok? && (start.None? || end.None?) ==> DaysBetween(r.value.0, r.value.1) == maxDays
    ensures r.Ok? && start.Some? && end.Some? ==>
      DaysBetween(r.value.0, r.value.1) == Min(DaysBetween(start.value, end.value), maxDays)
  {
    if start.None? then
      WindowBefore(if end.Some? then end.value else today, maxDays)
    else if end.None? then
      WindowAfter(start.value, maxDays)
    else if Less(end.value, start.value) then
      Err(HttpBadRequest)
    else
      OrdinalBounds(start.value);
      WindowBefore(end.value, Min(DaysBetween(start.value, end.value), maxDays))
  }

  /** The window of n days that ends on e: `(e - timedelta(days=n), e)`. */
  function WindowBefore(e: Date, n: nat): (r: Result<(Date, Date)>)
    ensures r.Err? <==> Ordinal(e) - n < 1
    ensures r.Err? ==> r.error == OverflowError
    ensures r.Ok? ==> r.value.1 == e && Ordinal(r.value.0) == Ordinal(e) - n
  {
    OrdinalBounds(e);
    AddDaysOrdinal(e, -(n as int));
    match AddDays(e, -(n as int))
    case None => Err(OverflowError)
    case Some(s) => Ok((s, e))
  }

  /** The window of n days that starts on s: `(s, s + timedelta(days=n))`. */
  function WindowAfter(s: Date, n: nat): (r: Result<(Date, Date)>)
    ensures r.Err? <==> Ordinal(s) + n > MaxOrdinal
    ensures r.Err? ==> r.error == OverflowError
    ensures r.Ok? ==> r.value.0 == s && Ordinal(r.value.1) == Ordinal(s) + n
  {
    OrdinalBounds(s);
    AddDaysOrdinal(s, n);
    match AddDays(s, n)
    case None => Err(OverflowError)
    case Some(e) => Ok((s, e))
  }

  /** A resolved window resolves to itself: it is already ordered and within `maxDays`. */
  lemma GetDateRangeIdempotent(start: Option<Date>, end: Option<Date>, today: Date, maxDays: nat, later: Date)
    requires GetDateRange(start, end, today, maxDays).Ok?
    ensures var w := GetDateRange(start, end, today, maxDays).value;
      GetDateRange(Some(w.0), Some(w.1), later, maxDays) == Ok(w)
  {
    var w := GetDateRange(start, end, today, maxDays).value;
    var r := GetDateRange(Some(w.0), Some(w.1), later, maxDays);
    OrdinalInjective(r.value.0, w.0);
  }

  /** Bounds already ordered and within `maxDays` are kept as given. */
  lemma GetDateRangeKeepsShortWindow(start: Date, end: Date, today: Date, maxDays: nat)
    requires LessEq(start, end) && DaysBetween(start, end) <= maxDays
    ensures GetDateRange(Some(start), Some(end), today, maxDays) == Ok((start, end))
  {
    var r := GetDateRange(Some(start), Some(end), today, maxDays);
    OrdinalInjective(r.value.0, start);
  }

  // ---------------------------------------------------------------------
  // The first version's data endpoints
  // ---------------------------------------------------------------------

  /** The four data endpoints of the first version. */
  datatype Endpoint = DailyCountryEndpoint | DailyPrefectureEndpoint | WeeklyCountryEndpoint | WeeklyPrefectureEndpoint

  /** The table an endpoint reads. */
  function EndpointData(e: Endpoint): DataType {
    match e
    case DailyCountryEndpoint => DailyCountry
    case DailyPrefectureEndpoint => DailyPrefecture
    case WeeklyCountryEndpoint => WeeklyCountry
    case WeeklyPrefectureEndpoint => WeeklyPrefecture
  }

  /** The file type whose link an endpoint attaches to each date: the
      prefecture endpoints use the daily country bulletin's. */
  function LinkedFile(e: Endpoint): DataFileType {
    match e
    case WeeklyCountryEndpoint => Weekly
    case _ => DailyCountryFile
  }

  /** The file type that holds the data an endpoint reads. */
  function SourceFile(e: Endpoint): (ft: DataFileType)
    ensures EndpointData(e) in DataTypes(ft)
  {
    match e
    case DailyCountryEndpoint => DailyCountryFile
    case DailyPrefectureEndpoint => DailyPrefectureFile
    case WeeklyCountryEndpoint => Weekly
    case WeeklyPrefectureEndpoint => Weekly
  }

  /** A data endpoint of the first version: the window, then the ascending
      query of its table, grouped by date, each date with the link of the
      endpoint's file type. */
  function DataEndpoint(e: Endpoint, s: Store, p: Option<Prefecture>, start: Option<Date>, end: Option<Date>, today: Date, maxDays: nat): (r: Result<seq<DateResult>>)
    ensures r.Err? <==> GetDateRange(start, end, today, maxDays).Err?
    ensures r.Ok? ==> var w := GetDateRange(start, end, today, maxDays).value;
      Reports(r.value, TableOf(s, EndpointData(e)), w.0, w.1, p, LinkedFile(e))
  {
    match GetDateRange(start, end, today, maxDays)
    case Err(err) => Err(err)
    case Ok(w) =>
      GroupedQueryReports(TableOf(s, EndpointData(e)), w.0, w.1, p, LinkedFile(e));
      Ok(DateResults(RangeQuery(TableOf(s, EndpointData(e)), w.0, w.1, p, false), LinkedFile(e)))
  }

  /** The groups of a query concatenate back to its rows, in order. */
  lemma DataEndpointFlattens(table: Table, start: Date, end: Date, p: Option<Prefecture>, ft: DataFileType)
    ensures var rows := RangeQuery(table, start, end, p, false);
      Flatten(GroupBy(rows, EntryDate)) == rows
      && |DateResults(rows, ft)| == |GroupBy(rows, EntryDate)|
  {
    FlattenGroupBy(RangeQuery(table, start, end, p, false), EntryDate);
  }

  /** `weekly_prefecture_data(prefecture, ...)` of the first version, which
      takes the prefecture as text: the window is resolved first, then an
      unknown prefecture name is a 400. */
  function WeeklyPrefectureByName(s: Store, name: string, start: Option<Date>, end: Option<Date>, today: Date, maxDays: nat): (r: Result<seq<DateResult>>)
    ensures GetDateRange(start, end, today, maxDays).Err? ==> r == Err(GetDateRange(start, end, today, maxDays).error)
    ensures GetDateRange(start, end, today, maxDays).Ok? && PrefectureFromName(name).Err? ==> r == Err(HttpBadRequest)
    ensures r.Ok? <==> GetDateRange(start, end, today, maxDays).Ok? && PrefectureFromName(name).Ok?
    ensures r.Ok? ==> var w := GetDateRange(start, end, today, maxDays).value;
      Reports(r.value, TableOf(s, WeeklyPrefecture), w.0, w.1, Some(PrefectureFromName(name).value), DailyCountryFile)
  {
    var w := GetDateRange(start, end, today, maxDays);
    if w.Err? then Err(w.error)
    else if PrefectureFromName(name).Err? then Err(HttpBadRequest)
    else
      var p := PrefectureFromName(name).value;
      var r := DataEndpoint(WeeklyPrefectureEndpoint, s, Some(p), start, end, today, maxDays);
      assert EndpointData(WeeklyPrefectureEndpoint) == WeeklyPrefecture;
      assert LinkedFile(WeeklyPrefectureEndpoint) == DailyCountryFile;
      assert Reports(r.value, TableOf(s, WeeklyPrefecture), w.value.0, w.value.1, Some(p), DailyCountryFile);
      r
  }

  /** The prefecture endpoints link each date to the daily country bulletin,
      which is not the file their data come from. */
  lemma PrefectureLinksAsWritten(e: Endpoint, d: Date)
    requires e == DailyPrefectureEndpoint || e == WeeklyPrefectureEndpoint
    ensures Link(LinkedFile(e), d) == Link(DailyCountryFile, d)
    ensures LinkedFile(e) != SourceFile(e)
    ensures Link(LinkedFile(e), d) != Link(SourceFile(e), d)
  {
    LinkLength(DailyCountryFile, d);
    LinkLength(SourceFile(e), d);
  }

  /** A link is the base, the prefix, `_`, the ten characters of the date and a suffix of four or five characters. */
  lemma LinkLength(t: DataFileType, d: Date)
    ensures 4 <= |Link(t, d)| - |LinkBase| - |Prefix(t)| - 11 <= 5
  {
    if t == Weekly && WeeklyRenaming(d).Some? {
      var r := WeeklyRenaming(d).value;
      assert |r.suffix| == 4 || |r.suffix| == 5;
      assert FileName(t, d) == NamedFile(t, r.named, r.suffix);
    }
  }
}
