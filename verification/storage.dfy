/** The relational storage of the bulletin data: four tables, one per data
    type, each a bag of rows stamped with the date of the bulletin they came
    from. A table is modelled as the sequence of its rows; the operations are
    those of the SQLAlchemy storage: replace the rows of a date, ask whether a
    date has rows, the range of stored dates, and the inclusive date-range
    queries ordered by date.
 */
module Storage {
  import opened Options
  import opened Calendar
  import opened Enums
  import opened Records
  import opened Sorting

  /** A table row: the bulletin date and the record stored under it. */
  datatype Entry = Entry(date: Date, record: Record)

  type Table = seq<Entry>

  /** The contents of the four price tables. */
  datatype Store = Store(weeklyCountry: Table, weeklyPrefecture: Table, dailyCountry: Table, dailyPrefecture: Table)

  /** The ORM model classes, one per table. */
  datatype Model = WeeklyCountryModel | WeeklyPrefectureModel | DailyCountryModel | DailyPrefectureModel

  function TableName(m: Model): string {
    match m
    case WeeklyCountryModel => "weekly_country"
    case WeeklyPrefectureModel => "weekly_prefecture"
    case DailyCountryModel => "daily_country"
    case DailyPrefectureModel => "daily_prefecture"
  }

  /** `_get_model`: the model of a data type; its table is named by the data type's value. */
  function GetModel(t: DataType): (m: Model)
    ensures TableName(m) == DataTypeValue(t)
  {
    match t
    case WeeklyCountry => WeeklyCountryModel
    case WeeklyPrefecture => WeeklyPrefectureModel
    case DailyCountry => DailyCountryModel
    case DailyPrefecture => DailyPrefectureModel
  }

  /** Every model belongs to exactly one data type. */
  lemma GetModelBijective(m: Model)
    ensures exists t :: GetModel(t) == m
    ensures forall t, u :: GetModel(t) == m && GetModel(u) == m ==> t == u
  {
    match m
    case WeeklyCountryModel => assert GetModel(WeeklyCountry) == m;
    case WeeklyPrefectureModel => assert GetModel(WeeklyPrefecture) == m;
    case DailyCountryModel => assert GetModel(DailyCountry) == m;
    case DailyPrefectureModel => assert GetModel(DailyPrefecture) == m;
  }

  function TableOf(s: Store, t: DataType): Table {
    match GetModel(t)
    case WeeklyCountryModel => s.weeklyCountry
    case WeeklyPrefectureModel => s.weeklyPrefecture
    case DailyCountryModel => s.dailyCountry
    case DailyPrefectureModel => s.dailyPrefecture
  }

  /** The store with the table of t replaced. */
  function WithTable(s: Store, t: DataType, table: Table): (r: Store)
    ensures TableOf(r, t) == table
    ensures forall u :: u != t ==> TableOf(r, u) == TableOf(s, u)
  {
    match t
    case WeeklyCountry => s.(weeklyCountry := table)
    case WeeklyPrefecture => s.(weeklyPrefecture := table)
    case DailyCountry => s.(dailyCountry := table)
    case DailyPrefecture => s.(dailyPrefecture := table)
  }

  /** The kind of record a table's columns hold: prefecture records in the prefecture tables, country records in the others. */
  predicate Fits(t: DataType, r: Record) {
    if t == WeeklyPrefecture || t == DailyPrefecture then r.PrefectureRecord? else r.CountryRecord?
  }

  /** The NOT NULL columns a record fills: the price of both country tables
      and, in the daily country table, the number of stations. A prefecture
      record always carries its price. */
  predicate NotNull(t: DataType, r: Record) {
    r.CountryRecord? ==> r.price.Some? && (t == DailyCountry ==> r.stations.Some?)
  }

  /** The columns besides the date of a table's unique constraint: the fuel
      type, and the prefecture in the prefecture tables. */
  function UniqueKey(r: Record): (Option<Prefecture>, FuelType) {
    match r
    case CountryRecord(f, _, _) => (None, f)
    case PrefectureRecord(p, f, _) => (Some(p), f)
  }

  /** The unique keys of rows, in order. */
  function UniqueKeys(rows: seq<Record>): (ks: seq<(Option<Prefecture>, FuelType)>)
    ensures |ks| == |rows| && forall i :: 0 <= i < |rows| ==> ks[i] == UniqueKey(rows[i])
  {
    if rows == [] then [] else [UniqueKey(rows[0])] + UniqueKeys(rows[1..])
  }

  /** Rows one date of a table can hold, row by row: each fits the columns,
      fills the NOT NULL ones and has a unique key no later row repeats. */
  predicate Admissible(t: DataType, rows: seq<Record>) {
    rows == []
    || (Fits(t, rows[0]) && NotNull(t, rows[0]) && UniqueKey(rows[0]) !in UniqueKeys(rows[1..])
        && Admissible(t, rows[1..]))
  }

  /** Admissible rows are those that each fit the table and fill its NOT
      NULL columns, no two of which share the unique key. */
  lemma {:induction false} AdmissibleMeaning(t: DataType, rows: seq<Record>)
    ensures Admissible(t, rows) <==>
      (forall i :: 0 <= i < |rows| ==> Fits(t, rows[i]) && NotNull(t, rows[i]))
      && forall i, j :: 0 <= i < j < |rows| ==> UniqueKey(rows[i]) != UniqueKey(rows[j])
  {
    if rows != [] {
      var rest := rows[1..];
      AdmissibleMeaning(t, rest);
      if Admissible(t, rows) {
        forall i, j | 0 <= i < j < |rows|
          ensures UniqueKey(rows[i]) != UniqueKey(rows[j])
        {
          if i == 0 {
            assert UniqueKeys(rest)[j - 1] == UniqueKey(rows[j]);
          } else {
            assert rows[i] == rest[i - 1] && rows[j] == rest[j - 1];
          }
        }
        forall i | 0 <= i < |rows|
          ensures Fits(t, rows[i]) && NotNull(t, rows[i])
        {
          if i > 0 {
            assert rows[i] == rest[i - 1];
          }
        }
      }
      if (forall i :: 0 <= i < |rows| ==> Fits(t, rows[i]) && NotNull(t, rows[i]))
         && forall i, j :: 0 <= i < j < |rows| ==> UniqueKey(rows[i]) != UniqueKey(rows[j]) {
        forall i | 0 <= i < |rest|
          ensures Fits(t, rest[i]) && NotNull(t, rest[i])
        {
          assert rest[i] == rows[i + 1];
        }
        forall i, j | 0 <= i < j < |rest|
          ensures UniqueKey(rest[i]) != UniqueKey(rest[j])
        {
          assert rest[i] == rows[i + 1] && rest[j] == rows[j + 1];
        }
        forall j | 0 <= j < |rest|
          ensures UniqueKeys(rest)[j] != UniqueKey(rows[0])
        {
          assert rest[j] == rows[j + 1];
        }
      }
    }
  }

  /** Every date of every table holds admissible rows. */
  ghost predicate Constrained(s: Store) {
    forall t: DataType, d: Date :: Admissible(t, RecordsOn(TableOf(s, t), d))
  }

  predicate WellKinded(s: Store) {
    forall t: DataType, i :: 0 <= i < |TableOf(s, t)| ==> Fits(t, TableOf(s, t)[i].record)
  }

  // ---------------------------------------------------------------------
  // The rows of a date
  // ---------------------------------------------------------------------

  /** The records a table holds for a date, in table order. */
  function RecordsOn(table: Table, d: Date): seq<Record> {
    FilterMap(table, (e: Entry) => if e.date == d then Some(e.record) else None)
  }

  /** `exists().where(model.date == date)`. */
  predicate HasDate(table: Table, d: Date) {
    exists i :: 0 <= i < |table| && table[i].date == d
  }

  /** A date has rows exactly when it has records. */
  lemma HasDateRecords(table: Table, d: Date)
    ensures HasDate(table, d) <==> RecordsOn(table, d) != []
  {
    var f := (e: Entry) => if e.date == d then Some(e.record) else None;
    if HasDate(table, d) {
      var i :| 0 <= i < |table| && table[i].date == d;
      FilterMapMembers(table, f, table[i].record);
    } else if RecordsOn(table, d) != [] {
      FilterMapMembers(table, f, RecordsOn(table, d)[0]);
    }
  }

  /** The rows of a table not dated d. */
  function OtherDates(table: Table, d: Date): (r: Table)
    ensures forall i :: 0 <= i < |r| ==> r[i].date != d
  {
    if table == [] then []
    else (if table[0].date != d then [table[0]] else []) + OtherDates(table[1..], d)
  }

  /** The rows of a date, stamped with it. */
  function Stamped(d: Date, rows: seq<Record>): (r: Table)
    ensures |r| == |rows|
    ensures forall i :: 0 <= i < |r| ==> r[i] == Entry(d, rows[i])
  {
    seq(|rows|, i requires 0 <= i < |rows| => Entry(d, rows[i]))
  }

  /** `update_data` on one table: delete the rows of d, then add the given rows stamped with d. */
  function ReplaceDate(table: Table, d: Date, rows: seq<Record>): Table {
    OtherDates(table, d) + Stamped(d, rows)
  }

  lemma {:induction false} RecordsOnConcat(a: Table, b: Table, d: Date)
    ensures RecordsOn(a + b, d) == RecordsOn(a, d) + RecordsOn(b, d)
  {
    FilterMapConcat(a, b, (e: Entry) => if e.date == d then Some(e.record) else None);
  }

  /** Dropping the rows of d leaves the records of every other date as they were, and none of d. */
  lemma {:induction false} OtherDatesRecords(table: Table, d: Date, e: Date)
    ensures RecordsOn(OtherDates(table, d), e) == if e == d then [] else RecordsOn(table, e)
  {
    if table != [] {
      OtherDatesRecords(table[1..], d, e);
      var head := if table[0].date != d then [table[0]] else [];
      RecordsOnConcat(head, OtherDates(table[1..], d), e);
      RecordsOnConcat([table[0]], table[1..], e);
      assert [table[0]] + table[1..] == table;
    }
  }

  lemma {:induction false} StampedRecords(d: Date, rows: seq<Record>, e: Date)
    ensures RecordsOn(Stamped(d, rows), e) == if e == d then rows else []
  {
    if rows != [] {
      StampedRecords(d, rows[1..], e);
      assert Stamped(d, rows) == [Entry(d, rows[0])] + Stamped(d, rows[1..]);
      RecordsOnConcat([Entry(d, rows[0])], Stamped(d, rows[1..]), e);
    }
  }

  /** After replacing the rows of d, the table holds exactly the given rows for d and is unchanged for every other date. */
  lemma ReplaceDateRecords(table: Table, d: Date, rows: seq<Record>, e: Date)
    ensures RecordsOn(ReplaceDate(table, d, rows), e) == if e == d then rows else RecordsOn(table, e)
  {
    RecordsOnConcat(OtherDates(table, d), Stamped(d, rows), e);
    OtherDatesRecords(table, d, e);
    StampedRecords(d, rows, e);
  }

  /** Replacing the rows of a date twice with the same rows is the same as replacing them once. */
  lemma ReplaceDateIdempotent(table: Table, d: Date, rows: seq<Record>)
    ensures ReplaceDate(ReplaceDate(table, d, rows), d, rows) == ReplaceDate(table, d, rows)
  {
    OtherDatesConcat(OtherDates(table, d), Stamped(d, rows), d);
    OtherDatesAbsent(OtherDates(table, d), d);
    OtherDatesAbsent(Stamped(d, rows), d) by {
      StampedAllOn(d, rows);
    }
  }

  lemma StampedAllOn(d: Date, rows: seq<Record>)
    ensures OtherDates(Stamped(d, rows), d) == []
  {
    OtherDatesOfDate(Stamped(d, rows), d);
  }

  lemma {:induction false} OtherDatesOfDate(table: Table, d: Date)
    requires forall i :: 0 <= i < |table| ==> table[i].date == d
    ensures OtherDates(table, d) == []
  {
    if table != [] {
      OtherDatesOfDate(table[1..], d);
    }
  }

  lemma {:induction false} OtherDatesAbsent(table: Table, d: Date)
    ensures (forall i :: 0 <= i < |table| ==> table[i].date != d) ==> OtherDates(table, d) == table
    ensures (forall i :: 0 <= i < |table| ==> table[i].date == d) ==> OtherDates(table, d) == []
  {
    if table != [] {
      OtherDatesAbsent(table[1..], d);
      assert table == [table[0]] + table[1..];
    }
  }

  lemma {:induction false} OtherDatesConcat(a: Table, b: Table, d: Date)
    ensures OtherDates(a + b, d) == OtherDates(a, d) + OtherDates(b, d)
  {
    if a == [] {
      assert a + b == b;
    } else {
      assert (a + b)[0] == a[0];
      assert (a + b)[1..] == a[1..] + b;
      OtherDatesConcat(a[1..], b, d);
    }
  }

  // ---------------------------------------------------------------------
  // The storage operations
  // ---------------------------------------------------------------------

  /** `update_data(date, data_type, data)`: the rows of the data type for the
      date become the given rows, in order, and nothing else changes. The
      rows must fit the model's columns. */
  function UpdateData(s: Store, d: Date, t: DataType, rows: seq<Record>): (r: Store)
    requires forall i :: 0 <= i < |rows| ==> Fits(t, rows[i])
    ensures RecordsOn(TableOf(r, t), d) == rows
    ensures forall e :: e != d ==> RecordsOn(TableOf(r, t), e) == RecordsOn(TableOf(s, t), e)
    ensures forall u :: u != t ==> TableOf(r, u) == TableOf(s, u)
    ensures WellKinded(s) ==> WellKinded(r)
  {
    var table := ReplaceDate(TableOf(s, t), d, rows);
    ReplaceDateRecords(TableOf(s, t), d, rows, d);
    forall e | e != d
      ensures RecordsOn(table, e) == RecordsOn(TableOf(s, t), e)
    {
      ReplaceDateRecords(TableOf(s, t), d, rows, e);
    }
    var r := WithTable(s, t, table);
    UpdateKeepsKinds(s, d, t, rows);
    r
  }

  lemma UpdateKeepsKinds(s: Store, d: Date, t: DataType, rows: seq<Record>)
    requires forall i :: 0 <= i < |rows| ==> Fits(t, rows[i])
    ensures WellKinded(s) ==> WellKinded(WithTable(s, t, ReplaceDate(TableOf(s, t), d, rows)))
  {
    if WellKinded(s) {
      var table := ReplaceDate(TableOf(s, t), d, rows);
      OtherDatesWithin(TableOf(s, t), d);
      var r := WithTable(s, t, table);
      forall u: DataType, i | 0 <= i < |TableOf(r, u)|
        ensures Fits(u, TableOf(r, u)[i].record)
      {
        if u == t {
          var kept := OtherDates(TableOf(s, t), d);
          if i < |kept| {
            assert kept[i] in TableOf(s, t);
            var j :| 0 <= j < |TableOf(s, t)| && TableOf(s, t)[j] == kept[i];
          } else {
            assert table[i] == Stamped(d, rows)[i - |kept|];
          }
        }
      }
    }
  }

  lemma {:induction false} OtherDatesWithin(table: Table, d: Date)
    ensures forall x :: x in OtherDates(table, d) ==> x in table
  {
    if table != [] {
      OtherDatesWithin(table[1..], d);
    }
  }

  /** `data_exists(data_type, date)`: some row of the data type has the date. */
  predicate DataExists(s: Store, t: DataType, d: Date) {
    HasDate(TableOf(s, t), d)
  }

  /** After an update a date has data exactly when rows were given, and other dates and data types keep theirs. */
  lemma DataExistsAfterUpdate(s: Store, d: Date, t: DataType, rows: seq<Record>, e: Date, u: DataType)
    requires forall i :: 0 <= i < |rows| ==> Fits(t, rows[i])
    ensures DataExists(UpdateData(s, d, t, rows), u, e) <==>
      if u == t && e == d then rows != [] else DataExists(s, u, e)
  {
    var r := UpdateData(s, d, t, rows);
    HasDateRecords(TableOf(r, u), e);
    HasDateRecords(TableOf(s, u), e);
  }

  // ---------------------------------------------------------------------
  // date_range
  // ---------------------------------------------------------------------

  /** The dates of the rows, in table order. */
  function DatesOf(table: Table): (ds: seq<Date>)
    ensures |ds| == |table|
    ensures forall i :: 0 <= i < |table| ==> ds[i] == table[i].date
  {
    seq(|table|, i requires 0 <= i < |table| => table[i].date)
  }

  /** `min(model.date)`: None on an empty table. */
  function MinDate(table: Table): (r: Option<Date>)
    ensures r.None? <==> table == []
    ensures r.Some? ==> HasDate(table, r.value) && forall i :: 0 <= i < |table| ==> LessEq(r.value, table[i].date)
  {
    var r := Earliest(DatesOf(table));
    if r.Some? then
      var i :| 0 <= i < |table| && DatesOf(table)[i] == r.value;
      r
    else r
  }

  /** `max(model.date)`: None on an empty table. */
  function MaxDate(table: Table): (r: Option<Date>)
    ensures r.None? <==> table == []
    ensures r.Some? ==> HasDate(table, r.value) && forall i :: 0 <= i < |table| ==> LessEq(table[i].date, r.value)
  {
    var r := Latest(DatesOf(table));
    if r.Some? then
      var i :| 0 <= i < |table| && DatesOf(table)[i] == r.value;
      r
    else r
  }

  /** `date_range(data_type)`: the earliest and the latest stored date, both None when the table is empty. */
  function DateRange(s: Store, t: DataType): (r: (Option<Date>, Option<Date>))
    ensures r.0.None? <==> r.1.None?
    ensures r.0.None? <==> forall d :: !DataExists(s, t, d)
    ensures r.0.Some? ==> DataExists(s, t, r.0.value) && DataExists(s, t, r.1.value)
    ensures r.0.Some? ==> forall d :: DataExists(s, t, d) ==> LessEq(r.0.value, d) && LessEq(d, r.1.value)
  {
    var table := TableOf(s, t);
    if table == [] then
      assert forall d :: !HasDate(table, d);
      (None, None)
    else
      var lo := MinDate(table);
      var hi := MaxDate(table);
      assert DataExists(s, t, lo.value);
      (lo, hi)
  }

  // ---------------------------------------------------------------------
  // The date-range queries
  // ---------------------------------------------------------------------

  /** The row lies in the inclusive range and, when a prefecture is asked for, belongs to it. */
  predicate Selected(e: Entry, start: Date, end: Date, prefecture: Option<Prefecture>) {
    LessEq(start, e.date) && LessEq(e.date, end)
    && (prefecture.Some? ==> e.record.PrefectureRecord? && e.record.prefecture == prefecture.value)
  }

  /** The rank an `ORDER BY date` sorts by, ascending or descending. */
  function DateRank(descending: bool): Entry -> int {
    if descending then (e: Entry) => -Ordinal(e.date) else (e: Entry) => Ordinal(e.date)
  }

  /** `query(model).where(start <= date <= end[, prefecture]).order_by(date[.desc()])`. */
  function RangeQuery(table: Table, start: Date, end: Date, prefecture: Option<Prefecture>, descending: bool): (r: Table)
    ensures SortedBy(r, DateRank(descending))
  {
    SortBy(FilterMap(table, (e: Entry) => if Selected(e, start, end, prefecture) then Some(e) else None), DateRank(descending))
  }

  /** A row is returned exactly when it is stored and selected. */
  lemma RangeQueryMembers(table: Table, start: Date, end: Date, prefecture: Option<Prefecture>, descending: bool, e: Entry)
    ensures e in RangeQuery(table, start, end, prefecture, descending) <==> e in table && Selected(e, start, end, prefecture)
  {
    var f := (x: Entry) => if Selected(x, start, end, prefecture) then Some(x) else None;
    FilterMapMembers(table, f, e);
    SortByMembers(FilterMap(table, f), DateRank(descending), e);
  }

  /** The descending queries of the SQLAlchemy storage return the latest rows first. */
  lemma RangeQueryDescending(table: Table, start: Date, end: Date, prefecture: Option<Prefecture>)
    ensures var r := RangeQuery(table, start, end, prefecture, true);
      forall i, j :: 0 <= i < j < |r| ==> LessEq(r[j].date, r[i].date)
  {
    var r := RangeQuery(table, start, end, prefecture, true);
    assert forall i, j :: 0 <= i < j < |r| ==> DateRank(true)(r[i]) <= DateRank(true)(r[j]);
  }

  /** Inclusive bounds: the rows of the first and the last day of the range are returned. */
  lemma RangeQueryInclusive(table: Table, start: Date, end: Date, descending: bool, i: nat)
    requires i < |table| && (table[i].date == start || table[i].date == end) && LessEq(start, end)
    ensures table[i] in RangeQuery(table, start, end, None, descending)
  {
    RangeQueryMembers(table, start, end, None, descending, table[i]);
  }
}
