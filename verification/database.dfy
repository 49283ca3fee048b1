/** The SQLite database layer of the first version of the backend: table
    names per data type, the date restriction and the query text of the
    range queries, the check that every data type of a bulletin has rows of
    a date, and the upsert of a daily country row with its NULL mapping.
 */
module Database {
  import opened Options
  import opened Calendar
  import opened Numbers
  import opened Enums
  import opened Records
  import opened Storage
  import Extract

  /** `_table_for_data_type`: each data type's table is named by the data type's value. */
  function TableForDataType(t: DataType): (name: string)
    ensures name == DataTypeValue(t)
  {
    match t
    case DailyCountry => "daily_country"
    case DailyPrefecture => "daily_prefecture"
    case WeeklyCountry => "weekly_country"
    case WeeklyPrefecture => "weekly_prefecture"
  }

  /** The four tables are four different names, and no other name belongs to a data type. */
  lemma TableForDataTypeBijective(t: DataType, u: DataType, name: string)
    ensures TableForDataType(t) == TableForDataType(u) ==> t == u
    ensures (exists v :: TableForDataType(v) == name) <==>
      name in {"daily_country", "daily_prefecture", "weekly_country", "weekly_prefecture"}
  {
    if name == "daily_country" {
      assert TableForDataType(DailyCountry) == name;
    } else if name == "daily_prefecture" {
      assert TableForDataType(DailyPrefecture) == name;
    } else if name == "weekly_country" {
      assert TableForDataType(WeeklyCountry) == name;
    } else if name == "weekly_prefecture" {
      assert TableForDataType(WeeklyPrefecture) == name;
    }
  }

  // ---------------------------------------------------------------------
  // The date restriction and the query text
  // ---------------------------------------------------------------------

  /** The SQL fragment of a date restriction and its named parameters. */
  datatype Restriction = Restriction(sql: string, params: map<string, Date>)

  const StartClause: string := " date >= :start_date"
  const EndClause: string := " date <= :end_date"

  /** `_add_date_restriction(start_date, end_date)`: a date is always truthy,
      so a bound counts exactly when it is given. */
  function DateRestriction(start: Option<Date>, end: Option<Date>): (r: Restriction)
    ensures r.sql == "" <==> start.None? && end.None?
    ensures "start_date" in r.params <==> start.Some?
    ensures "end_date" in r.params <==> end.Some?
    ensures start.Some? ==> r.params["start_date"] == start.value
    ensures end.Some? ==> r.params["end_date"] == end.value
    ensures r.params.Keys <= {"start_date", "end_date"}
  {
    var startSql := if start.Some? then StartClause else "";
    var startParams := if start.Some? then map["start_date" := start.value] else map[];
    if end.Some? then
      Restriction(startSql + (if start.Some? then " AND" else "") + EndClause, startParams["end_date" := end.value])
    else
      Restriction(startSql, startParams)
  }

  /** Reading the bounds back from a restriction. */
  function RestrictionBounds(r: Restriction): Option<(Option<Date>, Option<Date>)> {
    var start := if "start_date" in r.params then Some(r.params["start_date"]) else None;
    var end := if "end_date" in r.params then Some(r.params["end_date"]) else None;
    if r.sql == "" && start.None? && end.None? then Some((None, None))
    else if r.sql == StartClause && start.Some? && end.None? then Some((start, None))
    else if r.sql == EndClause && start.None? && end.Some? then Some((None, end))
    else if r.sql == StartClause + " AND" + EndClause && start.Some? && end.Some? then Some((start, end))
    else None
  }

  /** The restriction names exactly the bounds it was built from. */
  lemma RestrictionRoundTrip(start: Option<Date>, end: Option<Date>)
    ensures RestrictionBounds(DateRestriction(start, end)) == Some((start, end))
  {
    var r := DateRestriction(start, end);
    if start.Some? && end.Some? {
      assert r.sql == StartClause + " AND" + EndClause;
    } else if start.Some? {
      assert r.sql == StartClause;
    } else if end.Some? {
      assert r.sql == "" + EndClause;
    }
  }

  const OrderByDate: string := " ORDER BY date"

  /** The range-query text: the selection, the connector (" WHERE" or " AND")
      when some bound is given, the restriction and the ordering. */
  function RangeQuery(select: string, connector: string, start: Option<Date>, end: Option<Date>): string {
    select + ((if start.Some? || end.Some? then connector else "") + (DateRestriction(start, end).sql + OrderByDate))
  }

  const DailyCountrySelect: string := "SELECT date, fuel_type, number_of_stations, price FROM daily_country"
  const DailyPrefectureSelect: string := "SELECT date, fuel_type, price FROM daily_prefecture WHERE prefecture = :prefecture "
  const WeeklyCountrySelect: string := "SELECT date, fuel_type, lowest_price, highest_price, median_price FROM weekly_country"
  const WeeklyPrefectureSelect: string :=
    "SELECT date, fuel_type, lowest_price, highest_price, median_price FROM weekly_prefecture WHERE prefecture = :prefecture "

  /** The range query of a data type; the prefecture tables already have a WHERE, so they join the restriction with AND. */
  function RangeQueryOf(t: DataType, start: Option<Date>, end: Option<Date>): string {
    match t
    case DailyCountry => RangeQuery(DailyCountrySelect, " WHERE", start, end)
    case DailyPrefecture => RangeQuery(DailyPrefectureSelect, " AND", start, end)
    case WeeklyCountry => RangeQuery(WeeklyCountrySelect, " WHERE", start, end)
    case WeeklyPrefecture => RangeQuery(WeeklyPrefectureSelect, " AND", start, end)
  }

  /** The connector appears exactly when a bound is given, and then a
      non-empty restriction follows it; the text always ends with the
      ordering by date. */
  lemma RangeQueryShape(select: string, connector: string, start: Option<Date>, end: Option<Date>)
    requires connector == " WHERE" || connector == " AND"
    ensures var q := RangeQuery(select, connector, start, end);
      |q| >= |select| + |OrderByDate| && q[..|select|] == select && q[|q| - |OrderByDate|..] == OrderByDate
    ensures var q := RangeQuery(select, connector, start, end);
      var rest := q[|select|..];
      (start.Some? || end.Some?) <==> (|rest| >= |connector| && rest[..|connector|] == connector)
    ensures var q := RangeQuery(select, connector, start, end);
      (start.Some? || end.Some?) ==> |q| > |select| + |connector| + |OrderByDate|
  {
    var sql := DateRestriction(start, end).sql;
    var c := if start.Some? || end.Some? then connector else "";
    QueryParts(select, c, sql);
    if start.None? && end.None? {
      assert sql == "";
      PrefixDiffers(sql + OrderByDate, connector);
    } else {
      PrefixOf(connector, sql + OrderByDate);
    }
  }

  /** The selection, the connector, the restriction and the ordering, each found where it was put. */
  lemma QueryParts(select: string, c: string, sql: string)
    ensures var q := select + (c + (sql + OrderByDate));
      |q| == |select| + |c| + |sql| + |OrderByDate| && q[..|select|] == select
      && q[|q| - |OrderByDate|..] == OrderByDate && q[|select|..] == c + (sql + OrderByDate)
  {
    var q := select + (c + (sql + OrderByDate));
    assert q[..|select|] == select;
    assert q[|select|..] == c + (sql + OrderByDate);
    assert q[|q| - |OrderByDate|..] == OrderByDate;
  }

  lemma PrefixOf(a: string, b: string)
    ensures |a + b| >= |a| && (a + b)[..|a|] == a
  {
    assert (a + b)[..|a|] == a;
  }

  /** The ordering does not start like a connector. */
  lemma PrefixDiffers(rest: string, connector: string)
    requires rest == OrderByDate && (connector == " WHERE" || connector == " AND")
    ensures !(|rest| >= |connector| && rest[..|connector|] == connector)
  {
    assert rest[1] != connector[1];
  }

  // ---------------------------------------------------------------------
  // data_exists
  // ---------------------------------------------------------------------

  /** `data_exists(data_types, date)`: stops at the first data type without
      rows of the date; true when every data type has some, and so for no
      data types at all. */
  method DataExistsAll(s: Store, types: seq<DataType>, d: Date) returns (r: bool)
    ensures r <==> forall i :: 0 <= i < |types| ==> DataExists(s, types[i], d)
  {
    for i := 0 to |types|
      invariant forall j :: 0 <= j < i ==> DataExists(s, types[j], d)
    {
      if !DataExists(s, types[i], d) {
        return false;
      }
    }
    return true;
  }

  // ---------------------------------------------------------------------
  // insert_daily_country_data
  // ---------------------------------------------------------------------

  /** A stored daily country row: the number of stations and the price text, NULL as None. */
  datatype CountryRow = CountryRow(stations: Option<int>, price: Option<string>)

  /** `daily_country`, keyed by its UNIQUE(date, fuel_type) constraint. */
  type CountryTable = map<(Date, FuelType), CountryRow>

  /** `number_of_stations if number_of_stations else None`. */
  function StationsParam(n: Option<int>): (r: Option<int>)
    ensures r.None? <==> n.None? || n.value == 0
    ensures r.Some? ==> r == n
  {
    if n.Some? && n.value != 0 then n else None
  }

  /** `str(price) if price else None`: every zero price is stored as NULL; any other is stored as text that reads back as the same Decimal. */
  function PriceParam(p: Option<Decimal>): (r: Option<string>)
    ensures r.None? <==> p.None? || !DecimalTruthy(p.value)
    ensures r.Some? ==> ParseDecimal(r.value) == Ok(p.value)
  {
    if p.Some? && DecimalTruthy(p.value) then
      DecimalRoundTrip(p.value);
      Some(DecimalToString(p.value))
    else None
  }

  /** The upsert of a row: a new key is added, an existing one is overwritten, every other row stays. */
  function Upsert(table: CountryTable, d: Date, f: FuelType, row: CountryRow): (r: CountryTable)
    ensures r.Keys == table.Keys + {(d, f)}
    ensures r[(d, f)] == row
    ensures forall k :: k in table && k != (d, f) ==> r[k] == table[k]
  {
    table[(d, f) := row]
  }

  /** `insert_daily_country_data` against the schema of `_create_db`, whose
      number_of_stations and price columns are NOT NULL: the NULL the
      insert maps a falsy value to is refused. */
  function InsertDailyCountry(table: CountryTable, d: Date, f: FuelType, n: Option<int>, p: Option<Decimal>): (r: Result<CountryTable>)
    ensures r.Err? <==> !(n.Some? && n.value != 0 && p.Some? && DecimalTruthy(p.value))
    ensures r.Err? ==> r.error == IntegrityError
    ensures r.Ok? ==> r.value == Upsert(table, d, f, CountryRow(n, PriceParam(p)))
  {
    var row := CountryRow(StationsParam(n), PriceParam(p));
    if row.stations.None? || row.price.None? then Err(IntegrityError)
    else Ok(Upsert(table, d, f, row))
  }

  /** A record the extraction keeps, stations unknown but a real price, which this insert refuses. */
  lemma InsertRefusesUnknownStations(table: CountryTable, d: Date, f: FuelType)
    ensures var p := Decimal(false, 1234, -3);
      Extract.Worthwhile(None, Some(p)) && InsertDailyCountry(table, d, f, None, Some(p)) == Err(IntegrityError)
  {
  }

  /** `insert_daily_country_data` against columns that admit NULL, as the
      NULL mapping and the reading `int(row[1]) if row[1] else None` of
      `country_data` expect: every row is stored. */
  function InsertDailyCountryNullable(table: CountryTable, d: Date, f: FuelType, n: Option<int>, p: Option<Decimal>): (r: CountryTable)
    ensures r.Keys == table.Keys + {(d, f)}
    ensures r[(d, f)].stations == (if n.Some? && n.value != 0 then n else None)
    ensures r[(d, f)].price.None? <==> p.None? || !DecimalTruthy(p.value)
    ensures forall k :: k in table && k != (d, f) ==> r[k] == table[k]
  {
    Upsert(table, d, f, CountryRow(StationsParam(n), PriceParam(p)))
  }

  /** `int(row[1]) if row[1] else None`. */
  function ReadStations(stored: Option<int>): Option<int> {
    if stored.Some? && stored.value != 0 then stored else None
  }

  /** What the nullable insert stores reads back as the record's stations, a falsy count reading as unknown. */
  lemma StationsReadBack(table: CountryTable, d: Date, f: FuelType, n: Option<int>, p: Option<Decimal>)
    ensures ReadStations(InsertDailyCountryNullable(table, d, f, n, p)[(d, f)].stations) == StationsParam(n)
    ensures n.Some? && n.value != 0 ==> ReadStations(InsertDailyCountryNullable(table, d, f, n, p)[(d, f)].stations) == n
  {
  }
}
