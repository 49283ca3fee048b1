/** The read side of the backend services over the stored tables: the rows of
    a date range grouped per date, each group linked to the bulletin it came
    from; the prices of one day per prefecture; the date an import resumes
    from; and whether a bulletin's data is already stored.
 */
module Services {
  import opened Options
  import opened Calendar
  import opened Enums
  import opened Records
  import opened Sorting
  import opened Grouping
  import opened Storage

  /** One element of a grouped listing: a date, the link of its bulletin and its records. */
  datatype DateResult = DateResult(date: Date, dataFile: string, data: seq<Record>)

  function EntryDate(e: Entry): Date {
    e.date
  }

  function RecordsOf(items: seq<Entry>): (r: seq<Record>)
    ensures |r| == |items|
    ensures forall i :: 0 <= i < |items| ==> r[i] == items[i].record
  {
    seq(|items|, i requires 0 <= i < |items| => items[i].record)
  }

  /** `[{'date': date, 'data_file': ft.link(date), 'data': [...]} for date, group in groupby(rows, date)]`. */
  function DateResults(rows: Table, ft: DataFileType): seq<DateResult> {
    var gs := GroupBy(rows, EntryDate);
    seq(|gs|, i requires 0 <= i < |gs| => DateResult(gs[i].key, Link(ft, gs[i].key), RecordsOf(gs[i].items)))
  }

  /** Some result is for date d. */
  predicate HasResult(r: seq<DateResult>, d: Date) {
    exists i :: 0 <= i < |r| && r[i].date == d
  }

  /** Some stored row of date d is selected. */
  predicate SelectedOn(table: Table, d: Date, start: Date, end: Date, prefecture: Option<Prefecture>) {
    exists k :: 0 <= k < |table| && table[k].date == d && Selected(table[k], start, end, prefecture)
  }

  /** What a grouped listing promises: the dates come in increasing order,
      each with the link of its bulletin and at least one record; a date is
      listed exactly when a selected row has it; and the records of a date
      are exactly the selected stored records of that date. */
  ghost predicate Reports(r: seq<DateResult>, table: Table, start: Date, end: Date, prefecture: Option<Prefecture>, ft: DataFileType) {
    (forall i, j :: 0 <= i < j < |r| ==> Less(r[i].date, r[j].date))
    && (forall i :: 0 <= i < |r| ==> r[i].dataFile == Link(ft, r[i].date) && r[i].data != [])
    && (forall d :: HasResult(r, d) <==> SelectedOn(table, d, start, end, prefecture))
    && (forall i, x :: 0 <= i < |r| ==>
          (x in r[i].data <==> Entry(r[i].date, x) in table && Selected(Entry(r[i].date, x), start, end, prefecture)))
  }

  /** The rows of an ascending date query, grouped by date, have strictly increasing dates. */
  lemma DateGroupsIncreasing(rows: Table)
    requires SortedBy(rows, DateRank(false))
    ensures StrictlyRanked(GroupBy(rows, EntryDate), Ordinal)
  {
    forall i, j | 0 <= i < j < |rows|
      ensures Ordinal(EntryDate(rows[i])) <= Ordinal(EntryDate(rows[j]))
      ensures EntryDate(rows[i]) != EntryDate(rows[j]) ==> Ordinal(EntryDate(rows[i])) != Ordinal(EntryDate(rows[j]))
    {
      assert DateRank(false)(rows[i]) <= DateRank(false)(rows[j]);
      OrdinalInjective(rows[i].date, rows[j].date);
    }
    GroupByIncreasing(rows, EntryDate, Ordinal);
  }

  /** A date is listed exactly when a selected row has it. */
  lemma DateListed(table: Table, start: Date, end: Date, prefecture: Option<Prefecture>, ft: DataFileType, d: Date)
    ensures var r := DateResults(RangeQuery(table, start, end, prefecture, false), ft);
      HasResult(r, d) <==> SelectedOn(table, d, start, end, prefecture)
  {
    var r := DateResults(RangeQuery(table, start, end, prefecture, false), ft);
    if HasResult(r, d) {
      ListedDateSelected(table, start, end, prefecture, ft, d);
    }
    if SelectedOn(table, d, start, end, prefecture) {
      SelectedDateListed(table, start, end, prefecture, ft, d);
    }
  }

  /** A listed date has a selected row. */
  lemma ListedDateSelected(table: Table, start: Date, end: Date, prefecture: Option<Prefecture>, ft: DataFileType, d: Date)
    requires HasResult(DateResults(RangeQuery(table, start, end, prefecture, false), ft), d)
    ensures SelectedOn(table, d, start, end, prefecture)
  {
    var rows := RangeQuery(table, start, end, prefecture, false);
    var gs := GroupBy(rows, EntryDate);
    var r := DateResults(rows, ft);
    GroupByKeys(rows, EntryDate, d);
    var i :| 0 <= i < |r| && r[i].date == d;
    assert gs[i].key == d;
    var j :| 0 <= j < |rows| && EntryDate(rows[j]) == d;
    RangeQueryMembers(table, start, end, prefecture, false, rows[j]);
    var k :| 0 <= k < |table| && table[k] == rows[j];
  }

  /** A date with a selected row is listed. */
  lemma SelectedDateListed(table: Table, start: Date, end: Date, prefecture: Option<Prefecture>, ft: DataFileType, d: Date)
    requires SelectedOn(table, d, start, end, prefecture)
    ensures HasResult(DateResults(RangeQuery(table, start, end, prefecture, false), ft), d)
  {
    var rows := RangeQuery(table, start, end, prefecture, false);
    var k :| 0 <= k < |table| && table[k].date == d && Selected(table[k], start, end, prefecture);
    RangeQueryMembers(table, start, end, prefecture, false, table[k]);
    var j :| 0 <= j < |rows| && rows[j] == table[k];
    RowDateListed(rows, ft, j);
  }

  /** The date of any row is listed. */
  lemma RowDateListed(rows: Table, ft: DataFileType, j: nat)
    requires j < |rows|
    ensures HasResult(DateResults(rows, ft), rows[j].date)
  {
    var d := rows[j].date;
    var gs := GroupBy(rows, EntryDate);
    var r := DateResults(rows, ft);
    GroupByKeys(rows, EntryDate, d);
    assert EntryDate(rows[j]) == d;
    var i :| 0 <= i < |gs| && gs[i].key == d;
    assert r[i].date == d;
  }

  /** The records listed for a date are exactly the selected stored records of that date. */
  lemma DateRecordsListed(table: Table, start: Date, end: Date, prefecture: Option<Prefecture>, ft: DataFileType, i: nat, x: Record)
    requires i < |DateResults(RangeQuery(table, start, end, prefecture, false), ft)|
    ensures var r := DateResults(RangeQuery(table, start, end, prefecture, false), ft);
      x in r[i].data <==> Entry(r[i].date, x) in table && Selected(Entry(r[i].date, x), start, end, prefecture)
  {
    var rows := RangeQuery(table, start, end, prefecture, false);
    var gs := GroupBy(rows, EntryDate);
    var r := DateResults(rows, ft);
    var e := Entry(r[i].date, x);
    DateGroupsIncreasing(rows);
    GroupByMembers(rows, EntryDate, Ordinal, i, e);
    RangeQueryMembers(table, start, end, prefecture, false, e);
    DateResultData(rows, ft, i, x);
  }

  /** A record is listed in a group exactly when its entry is one of the group's rows. */
  lemma DateResultData(rows: Table, ft: DataFileType, i: nat, x: Record)
    requires i < |DateResults(rows, ft)|
    ensures var gs := GroupBy(rows, EntryDate); var r := DateResults(rows, ft);
      i < |gs| && (x in r[i].data <==> Entry(r[i].date, x) in gs[i].items)
  {
    var gs := GroupBy(rows, EntryDate);
    var r := DateResults(rows, ft);
    var e := Entry(r[i].date, x);
    if x in r[i].data {
      var m :| 0 <= m < |gs[i].items| && gs[i].items[m].record == x;
      assert gs[i].items[m] == e;
    }
    if e in gs[i].items {
      var m :| 0 <= m < |gs[i].items| && gs[i].items[m] == e;
      assert r[i].data[m] == x;
    }
  }

  /** Grouping an ascending date-range query by date gives a listing that reports the selected rows. */
  lemma GroupedQueryReports(table: Table, start: Date, end: Date, prefecture: Option<Prefecture>, ft: DataFileType)
    ensures Reports(DateResults(RangeQuery(table, start, end, prefecture, false), ft), table, start, end, prefecture, ft)
  {
    var rows := RangeQuery(table, start, end, prefecture, false);
    var r := DateResults(rows, ft);
    DateGroupsIncreasing(rows);
    forall d
      ensures HasResult(r, d) <==> SelectedOn(table, d, start, end, prefecture)
    {
      DateListed(table, start, end, prefecture, ft, d);
    }
    forall i, x | 0 <= i < |r|
      ensures x in r[i].data <==> Entry(r[i].date, x) in table && Selected(Entry(r[i].date, x), start, end, prefecture)
    {
      DateRecordsListed(table, start, end, prefecture, ft, i, x);
    }
  }

  /** `daily_country_data(start_date, end_date)`. */
  function DailyCountryData(s: Store, start: Date, end: Date): (r: seq<DateResult>)
    ensures Reports(r, TableOf(s, DailyCountry), start, end, None, DailyCountryFile)
  {
    GroupedQueryReports(TableOf(s, DailyCountry), start, end, None, DailyCountryFile);
    DateResults(RangeQuery(TableOf(s, DailyCountry), start, end, None, false), DailyCountryFile)
  }

  /** `daily_prefecture_data(prefecture, start_date, end_date)`. */
  function DailyPrefectureData(s: Store, p: Prefecture, start: Date, end: Date): (r: seq<DateResult>)
    ensures Reports(r, TableOf(s, DailyPrefecture), start, end, Some(p), DailyPrefectureFile)
  {
    GroupedQueryReports(TableOf(s, DailyPrefecture), start, end, Some(p), DailyPrefectureFile);
    DateResults(RangeQuery(TableOf(s, DailyPrefecture), start, end, Some(p), false), DailyPrefectureFile)
  }

  /** `weekly_country_data(start_date, end_date)`. */
  function WeeklyCountryData(s: Store, start: Date, end: Date): (r: seq<DateResult>)
    ensures Reports(r, TableOf(s, WeeklyCountry), start, end, None, Weekly)
  {
    GroupedQueryReports(TableOf(s, WeeklyCountry), start, end, None, Weekly);
    DateResults(RangeQuery(TableOf(s, WeeklyCountry), start, end, None, false), Weekly)
  }

  /** `weekly_prefecture_data(prefecture, start_date, end_date)`. */
  function WeeklyPrefectureData(s: Store, p: Prefecture, start: Date, end: Date): (r: seq<DateResult>)
    ensures Reports(r, TableOf(s, WeeklyPrefecture), start, end, Some(p), Weekly)
  {
    GroupedQueryReports(TableOf(s, WeeklyPrefecture), start, end, Some(p), Weekly);
    DateResults(RangeQuery(TableOf(s, WeeklyPrefecture), start, end, Some(p), false), Weekly)
  }

  // ---------------------------------------------------------------------
  // country_data
  // ---------------------------------------------------------------------

  /** The records of one prefecture on the day. */
  datatype PrefectureResult = PrefectureResult(prefecture: Prefecture, data: seq<Record>)

  /** `{'prefectures': [...], 'country': [...]}`. */
  datatype CountryDay = CountryDay(prefectures: seq<PrefectureResult>, country: seq<Record>)

  function PairKey(x: (Prefecture, Record)): Prefecture {
    x.0
  }

  /** The prefecture rows of a date, paired with their prefecture. */
  function PrefectureRowsOn(table: Table, d: Date): seq<(Prefecture, Record)> {
    FilterMap(table, (e: Entry) => if e.date == d && e.record.PrefectureRecord? then Some((e.record.prefecture, e.record)) else None)
  }

  /** Some stored prefecture row of date d belongs to p. */
  predicate PrefectureOn(table: Table, d: Date, p: Prefecture) {
    exists k :: 0 <= k < |table| && table[k].date == d && table[k].record.PrefectureRecord? && table[k].record.prefecture == p
  }

  predicate Lists(r: seq<PrefectureResult>, p: Prefecture) {
    exists i :: 0 <= i < |r| && r[i].prefecture == p
  }

  /** The prefecture rows of a date, ordered by prefecture. */
  function PrefectureRows(table: Table, d: Date, rank: Prefecture -> int): seq<(Prefecture, Record)> {
    SortBy(PrefectureRowsOn(table, d), (x: (Prefecture, Record)) => rank(x.0))
  }

  /** The ordered rows hold exactly the prefecture records stored for the date, each with its own prefecture. */
  lemma PrefectureRowsMembers(table: Table, d: Date, rank: Prefecture -> int, y: (Prefecture, Record))
    ensures y in PrefectureRows(table, d, rank) <==>
      Entry(d, y.1) in table && y.1.PrefectureRecord? && y.0 == y.1.prefecture
  {
    var f := (e: Entry) => if e.date == d && e.record.PrefectureRecord? then Some((e.record.prefecture, e.record)) else None;
    SortByMembers(PrefectureRowsOn(table, d), (x: (Prefecture, Record)) => rank(x.0), y);
    FilterMapMembers(table, f, y);
    if Entry(d, y.1) in table && y.1.PrefectureRecord? && y.0 == y.1.prefecture {
      var k :| 0 <= k < |table| && table[k] == Entry(d, y.1);
      assert f(table[k]) == Some(y);
    }
  }

  /** The prefecture groups come in strictly increasing rank. */
  lemma PrefectureGroupsIncreasing(table: Table, d: Date, rank: Prefecture -> int)
    requires forall p, q :: p != q ==> rank(p) != rank(q)
    ensures StrictlyRanked(GroupBy(PrefectureRows(table, d, rank), PairKey), rank)
  {
    var rows := PrefectureRows(table, d, rank);
    forall i, j | 0 <= i < j < |rows|
      ensures rank(PairKey(rows[i])) <= rank(PairKey(rows[j]))
      ensures PairKey(rows[i]) != PairKey(rows[j]) ==> rank(PairKey(rows[i])) != rank(PairKey(rows[j]))
    {
      assert ((x: (Prefecture, Record)) => rank(x.0))(rows[i]) <= ((x: (Prefecture, Record)) => rank(x.0))(rows[j]);
    }
    GroupByIncreasing(rows, PairKey, rank);
  }

  /** One result per prefecture group, with the group's records. */
  function PrefectureResults(gs: seq<Group<Prefecture, (Prefecture, Record)>>): (r: seq<PrefectureResult>)
    ensures |r| == |gs|
    ensures forall i :: 0 <= i < |gs| ==> r[i] == PrefectureResult(gs[i].key, PairRecords(gs[i].items))
  {
    seq(|gs|, i requires 0 <= i < |gs| => PrefectureResult(gs[i].key, PairRecords(gs[i].items)))
  }

  function PairRecords(items: seq<(Prefecture, Record)>): (r: seq<Record>)
    ensures |r| == |items|
    ensures forall m :: 0 <= m < |items| ==> r[m] == items[m].1
  {
    seq(|items|, m requires 0 <= m < |items| => items[m].1)
  }

  /** `country_data(date)`: the daily prefecture rows of the date, ordered by
      prefecture and grouped by it, and the daily country rows of the date.
      The order the database gives the prefecture column is `rank`; two
      prefectures never share a position. */
  function CountryData(s: Store, d: Date, rank: Prefecture -> int): (r: CountryDay)
    requires forall p, q :: p != q ==> rank(p) != rank(q)
    ensures forall i, j :: 0 <= i < j < |r.prefectures| ==> rank(r.prefectures[i].prefecture) < rank(r.prefectures[j].prefecture)
    ensures forall p :: Lists(r.prefectures, p) <==> PrefectureOn(TableOf(s, DailyPrefecture), d, p)
    ensures forall i, x :: 0 <= i < |r.prefectures| ==>
      (x in r.prefectures[i].data <==>
        Entry(d, x) in TableOf(s, DailyPrefecture) && x.PrefectureRecord? && x.prefecture == r.prefectures[i].prefecture)
    ensures forall x :: x in r.country <==> Entry(d, x) in TableOf(s, DailyCountry)
  {
    CountryRows(TableOf(s, DailyCountry), d);
    CountryDay(PrefectureDay(TableOf(s, DailyPrefecture), d, rank), RecordsOn(TableOf(s, DailyCountry), d))
  }

  /** The prefecture rows of a date, grouped by prefecture in the database's order. */
  function PrefectureDay(table: Table, d: Date, rank: Prefecture -> int): (r: seq<PrefectureResult>)
    requires forall p, q :: p != q ==> rank(p) != rank(q)
    ensures forall i, j :: 0 <= i < j < |r| ==> rank(r[i].prefecture) < rank(r[j].prefecture)
    ensures forall p :: Lists(r, p) <==> PrefectureOn(table, d, p)
    ensures forall i, x :: 0 <= i < |r| ==>
      (x in r[i].data <==> Entry(d, x) in table && x.PrefectureRecord? && x.prefecture == r[i].prefecture)
  {
    var prefectures := PrefectureResults(GroupBy(PrefectureRows(table, d, rank), PairKey));
    PrefectureGroupsIncreasing(table, d, rank);
    forall p
      ensures Lists(prefectures, p) <==> PrefectureOn(table, d, p)
    {
      PrefectureListed(table, d, rank, p);
    }
    forall i, x | 0 <= i < |prefectures|
      ensures x in prefectures[i].data <==> Entry(d, x) in table && x.PrefectureRecord? && x.prefecture == prefectures[i].prefecture
    {
      PrefectureRecordsListed(table, d, rank, i, x);
    }
    prefectures
  }

  lemma CountryRows(table: Table, d: Date)
    ensures forall x :: x in RecordsOn(table, d) <==> Entry(d, x) in table
  {
    forall x
      ensures x in RecordsOn(table, d) <==> Entry(d, x) in table
    {
      FilterMapMembers(table, (e: Entry) => if e.date == d then Some(e.record) else None, x);
      if Entry(d, x) in table {
        var k :| 0 <= k < |table| && table[k] == Entry(d, x);
      }
    }
  }

  /** A prefecture is listed exactly when it has rows of the date. */
  lemma PrefectureListed(table: Table, d: Date, rank: Prefecture -> int, p: Prefecture)
    ensures Lists(PrefectureResults(GroupBy(PrefectureRows(table, d, rank), PairKey)), p) <==> PrefectureOn(table, d, p)
  {
    var rows := PrefectureRows(table, d, rank);
    var gs := GroupBy(rows, PairKey);
    var r := PrefectureResults(gs);
    GroupByKeys(rows, PairKey, p);
    if Lists(r, p) {
      var i :| 0 <= i < |r| && r[i].prefecture == p;
      var j :| 0 <= j < |rows| && PairKey(rows[j]) == p;
      PrefectureRowsMembers(table, d, rank, rows[j]);
      var k :| 0 <= k < |table| && table[k] == Entry(d, rows[j].1);
    }
    if PrefectureOn(table, d, p) {
      var k :| 0 <= k < |table| && table[k].date == d && table[k].record.PrefectureRecord? && table[k].record.prefecture == p;
      var y := (p, table[k].record);
      PrefectureRowsMembers(table, d, rank, y);
      var j :| 0 <= j < |rows| && rows[j] == y;
      assert PairKey(rows[j]) == p;
      var i :| 0 <= i < |gs| && gs[i].key == p;
      assert r[i].prefecture == p;
    }
  }

  /** The records listed for a prefecture are exactly its stored records of the date. */
  lemma PrefectureRecordsListed(table: Table, d: Date, rank: Prefecture -> int, i: nat, x: Record)
    requires forall p, q :: p != q ==> rank(p) != rank(q)
    requires i < |GroupBy(PrefectureRows(table, d, rank), PairKey)|
    ensures var r := PrefectureResults(GroupBy(PrefectureRows(table, d, rank), PairKey));
      x in r[i].data <==> Entry(d, x) in table && x.PrefectureRecord? && x.prefecture == r[i].prefecture
  {
    var rows := PrefectureRows(table, d, rank);
    var gs := GroupBy(rows, PairKey);
    var r := PrefectureResults(gs);
    var y := (r[i].prefecture, x);
    PrefectureGroupsIncreasing(table, d, rank);
    GroupByMembers(rows, PairKey, rank, i, y);
    PrefectureRowsMembers(table, d, rank, y);
    if x in r[i].data {
      var m :| 0 <= m < |r[i].data| && r[i].data[m] == x;
      assert PairKey(gs[i].items[m]) == gs[i].key;
      assert gs[i].items[m] == y;
    }
    if y in gs[i].items {
      var m :| 0 <= m < |gs[i].items| && gs[i].items[m] == y;
      assert r[i].data[m] == x;
    }
  }

  // ---------------------------------------------------------------------
  // min_date and data_exists over a data file type
  // ---------------------------------------------------------------------

  /** The earliest of the present dates; None when none is present. */
  function EarliestPresent(ds: seq<Option<Date>>): (r: Option<Date>)
    ensures r.None? <==> forall i :: 0 <= i < |ds| ==> ds[i].None?
    ensures r.Some? ==> (exists i :: 0 <= i < |ds| && ds[i] == r)
    ensures r.Some? ==> forall i :: 0 <= i < |ds| && ds[i].Some? ==> LessEq(r.value, ds[i].value)
  {
    if ds == [] then None
    else
      var rest := EarliestPresent(ds[1..]);
      assert forall i :: 1 <= i < |ds| ==> ds[i] == ds[1..][i - 1];
      if ds[0].None? then rest
      else if rest.None? || LessEq(ds[0].value, rest.value) then ds[0]
      else rest
  }

  /** `min_date(data_file_type)`: the earliest of the latest dates of the
      file's data types that hold any data; None when none does. An import
      resumes from it, so no data type is left behind. */
  function MinDateOfFile(s: Store, ft: DataFileType): (r: Option<Date>)
    ensures r.None? <==> forall i :: 0 <= i < |DataTypes(ft)| ==> TableOf(s, DataTypes(ft)[i]) == []
    ensures r.Some? ==> exists i :: 0 <= i < |DataTypes(ft)| && MaxDate(TableOf(s, DataTypes(ft)[i])) == r
    ensures r.Some? ==> forall i :: 0 <= i < |DataTypes(ft)| && TableOf(s, DataTypes(ft)[i]) != [] ==>
      LessEq(r.value, MaxDate(TableOf(s, DataTypes(ft)[i])).value)
  {
    EarliestPresent(LatestDates(s, DataTypes(ft)))
  }

  /** The latest date of each data type's table. */
  function LatestDates(s: Store, types: seq<DataType>): (r: seq<Option<Date>>)
    ensures |r| == |types|
    ensures forall i :: 0 <= i < |types| ==> r[i] == MaxDate(TableOf(s, types[i]))
  {
    seq(|types|, i requires 0 <= i < |types| => MaxDate(TableOf(s, types[i])))
  }

  /** `data_exists(data_file_type, date)`: every data type of the file has rows of the date. */
  predicate FileDataExists(s: Store, ft: DataFileType, d: Date) {
    forall i :: 0 <= i < |DataTypes(ft)| ==> DataExists(s, DataTypes(ft)[i], d)
  }

  /** Updating one data type of a file: the file's data exists afterwards
      exactly when rows were given and every other data type of the file
      already had data of the date. */
  lemma FileDataExistsAfterUpdate(s: Store, ft: DataFileType, d: Date, t: DataType, rows: seq<Record>)
    requires t in DataTypes(ft)
    requires forall i :: 0 <= i < |rows| ==> Fits(t, rows[i])
    ensures FileDataExists(UpdateData(s, d, t, rows), ft, d) <==>
      rows != [] && forall u :: u in DataTypes(ft) && u != t ==> DataExists(s, u, d)
  {
    if rows != [] && forall u :: u in DataTypes(ft) && u != t ==> DataExists(s, u, d) {
      FileDataExistsAfterFill(s, ft, d, t, rows);
    }
    if FileDataExists(UpdateData(s, d, t, rows), ft, d) {
      FileDataExistedBefore(s, ft, d, t, rows);
    }
  }

  /** Rows given for one data type of a file, the others having data, complete the file. */
  lemma FileDataExistsAfterFill(s: Store, ft: DataFileType, d: Date, t: DataType, rows: seq<Record>)
    requires forall i :: 0 <= i < |rows| ==> Fits(t, rows[i])
    requires rows != [] && forall u :: u in DataTypes(ft) && u != t ==> DataExists(s, u, d)
    ensures FileDataExists(UpdateData(s, d, t, rows), ft, d)
  {
    var types := DataTypes(ft);
    forall i | 0 <= i < |types|
      ensures DataExists(UpdateData(s, d, t, rows), types[i], d)
    {
      DataExistsAfterUpdate(s, d, t, rows, d, types[i]);
    }
  }

  /** A file complete after updating one of its data types had rows given and data for the others. */
  lemma FileDataExistedBefore(s: Store, ft: DataFileType, d: Date, t: DataType, rows: seq<Record>)
    requires t in DataTypes(ft)
    requires forall i :: 0 <= i < |rows| ==> Fits(t, rows[i])
    requires FileDataExists(UpdateData(s, d, t, rows), ft, d)
    ensures rows != [] && forall u :: u in DataTypes(ft) && u != t ==> DataExists(s, u, d)
  {
    var r := UpdateData(s, d, t, rows);
    var types := DataTypes(ft);
    forall u | u in types && u != t
      ensures DataExists(s, u, d)
    {
      var k :| 0 <= k < |types| && types[k] == u;
      assert DataExists(r, types[k], d);
      DataExistsAfterUpdate(s, d, t, rows, d, u);
    }
    var k :| 0 <= k < |types| && types[k] == t;
    assert DataExists(r, types[k], d);
    DataExistsAfterUpdate(s, d, t, rows, d, t);
  }
}
