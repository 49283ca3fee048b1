/** The `graph` command: the daily country prices of a date range gathered
    per date and fuel type, the date axis and the price series drawn from
    them, and the command's arguments. Drawing itself is left to the plotting
    library; what the model keeps is the requirement that a series has one
    value per date of the axis.
 */
module Graph {
  import opened Options
  import opened Calendar
  import opened Numbers
  import opened Enums
  import opened Records
  import opened Storage
  import opened Assignments
  import Arguments
  import Text

  /** The price a stored record carries. */
  function RecordPrice(r: Record): Option<Decimal> {
    if r.CountryRecord? then r.price else Some(r.prefecturePrice)
  }

  // ---------------------------------------------------------------------
  // get_plot_data
  // ---------------------------------------------------------------------

  /** `plot_data`: date to fuel type to price. */
  type PlotMap = map<Date, map<FuelType, Option<Decimal>>>

  /** `plot_data[row['date']][row['fuel_type']] = row['price']` for each row in order, the inner dictionary created on first use. */
  function PlotInto(acc: PlotMap, rows: seq<Entry>): PlotMap
    decreases |rows|
  {
    if rows == [] then acc
    else
      var e := rows[0];
      var inner := if e.date in acc then acc[e.date] else map[];
      PlotInto(acc[e.date := inner[e.record.fuelType := RecordPrice(e.record)]], rows[1..])
  }

  /** `get_plot_data` over the rows the storage returns. */
  function PlotData(rows: seq<Entry>): PlotMap {
    PlotInto(map[], rows)
  }

  /** The assignment each row performs, keyed by date and fuel type. */
  function PlotWrites(rows: seq<Entry>): (ws: seq<((Date, FuelType), Option<Decimal>)>)
    ensures |ws| == |rows|
    ensures forall i :: 0 <= i < |rows| ==> ws[i] == ((rows[i].date, rows[i].record.fuelType), RecordPrice(rows[i].record))
  {
    seq(|rows|, i requires 0 <= i < |rows| => ((rows[i].date, rows[i].record.fuelType), RecordPrice(rows[i].record)))
  }

  /** The nested map and the flat map keyed by (date, fuel type) hold the same prices. */
  ghost predicate Agrees(p: PlotMap, m: map<(Date, FuelType), Option<Decimal>>) {
    (forall d, f :: (d, f) in m <==> d in p && f in p[d])
    && (forall d, f :: d in p && f in p[d] ==> (d, f) in m && p[d][f] == m[(d, f)])
  }

  /** One assignment keeps the nested and the flat map in agreement. */
  lemma AgreesStep(acc: PlotMap, m: map<(Date, FuelType), Option<Decimal>>, d: Date, f: FuelType, v: Option<Decimal>)
    requires Agrees(acc, m)
    ensures var inner := if d in acc then acc[d] else map[];
      Agrees(acc[d := inner[f := v]], m[(d, f) := v])
  {
  }

  /** Filling the nested map row by row is the run of keyed assignments of the rows. */
  lemma {:induction false} PlotIntoAgrees(acc: PlotMap, m: map<(Date, FuelType), Option<Decimal>>, rows: seq<Entry>)
    requires Agrees(acc, m)
    ensures Agrees(PlotInto(acc, rows), Writes(m, PlotWrites(rows)))
    decreases |rows|
  {
    if rows != [] {
      var e := rows[0];
      var inner := if e.date in acc then acc[e.date] else map[];
      AgreesStep(acc, m, e.date, e.record.fuelType, RecordPrice(e.record));
      PlotIntoAgrees(acc[e.date := inner[e.record.fuelType := RecordPrice(e.record)]], m[(e.date, e.record.fuelType) := RecordPrice(e.record)], rows[1..]);
      assert PlotWrites(rows)[1..] == PlotWrites(rows[1..]);
    }
  }

  /** The dates of the nested map are its old dates and the dates of the rows. */
  lemma {:induction false} PlotIntoDates(acc: PlotMap, rows: seq<Entry>, d: Date)
    ensures d in PlotInto(acc, rows) <==> d in acc || exists i :: 0 <= i < |rows| && rows[i].date == d
    decreases |rows|
  {
    if rows != [] {
      var e := rows[0];
      var inner := if e.date in acc then acc[e.date] else map[];
      PlotIntoDates(acc[e.date := inner[e.record.fuelType := RecordPrice(e.record)]], rows[1..], d);
      if exists i :: 0 <= i < |rows| && rows[i].date == d {
        var i :| 0 <= i < |rows| && rows[i].date == d;
        if i > 0 {
          assert rows[1..][i - 1].date == d;
        }
      }
      if exists i :: 0 <= i < |rows[1..]| && rows[1..][i].date == d {
        var i :| 0 <= i < |rows[1..]| && rows[1..][i].date == d;
        assert rows[i + 1].date == d;
      }
    }
  }

  /** The dates of the plot data are the dates of the rows. */
  lemma PlotDataDates(rows: seq<Entry>, d: Date)
    ensures d in PlotData(rows) <==> exists i :: 0 <= i < |rows| && rows[i].date == d
  {
    PlotIntoDates(map[], rows, d);
  }

  /** The nested map has a price exactly where the flat map has one, and the same price. */
  lemma AgreesAt(p: PlotMap, w: map<(Date, FuelType), Option<Decimal>>, d: Date, f: FuelType)
    requires Agrees(p, w)
    ensures d in p && f in p[d] <==> (d, f) in w
    ensures (d, f) in w ==> p[d][f] == w[(d, f)]
  {
  }

  /** A date has a price for a fuel type exactly when some row is of that
      date and fuel type, and it is the price of the last such row. */
  lemma {:induction false} PlotDataLastWins(rows: seq<Entry>, d: Date, f: FuelType)
    ensures d in PlotData(rows) && f in PlotData(rows)[d] <==>
      exists i :: 0 <= i < |rows| && rows[i].date == d && rows[i].record.fuelType == f
    ensures d in PlotData(rows) && f in PlotData(rows)[d] ==>
      var i := LastWrite(PlotWrites(rows), (d, f));
      0 <= i < |rows| && rows[i].date == d && rows[i].record.fuelType == f
      && PlotData(rows)[d][f] == RecordPrice(rows[i].record)
      && forall j :: i < j < |rows| ==> (rows[j].date, rows[j].record.fuelType) != (d, f)
  {
    var ws := PlotWrites(rows);
    var w := Writes(map[], ws);
    var p := PlotData(rows);
    PlotIntoAgrees(map[], map[], rows);
    AgreesAt(p, w, d, f);
    FlatLastWins(ws, (d, f));
    var i := LastWrite(ws, (d, f));
    if exists i :: 0 <= i < |rows| && rows[i].date == d && rows[i].record.fuelType == f {
      var k :| 0 <= k < |rows| && rows[k].date == d && rows[k].record.fuelType == f;
      assert ws[k].0 == (d, f);
    }
    if i >= 0 {
      assert ws[i].0 == (d, f);
    }
  }

  /** After a run of writes from the empty map, a key is present exactly when written, with its last value. */
  lemma FlatLastWins(ws: seq<((Date, FuelType), Option<Decimal>)>, k: (Date, FuelType))
    ensures k in Writes(map[], ws) <==> LastWrite(ws, k) >= 0
    ensures k in Writes(map[], ws) ==> Writes(map[], ws)[k] == ws[LastWrite(ws, k)].1
    ensures LastWrite(ws, k) < 0 ==> forall j :: 0 <= j < |ws| ==> ws[j].0 != k
  {
    WritesLast(map[], ws);
    if k in WrittenKeys(ws) {
      var j :| 0 <= j < |ws| && ws[j].0 == k;
      assert LastWrite(ws, k) >= j;
    }
    if LastWrite(ws, k) >= 0 {
      assert k in WrittenKeys(ws);
    }
  }

  /** A later row of the same date and fuel type overwrites an earlier one. */
  lemma PlotDataOverwrites(d: Date, r: Record, s: Record)
    requires r.CountryRecord? && s.CountryRecord? && r.fuelType == s.fuelType
    ensures d in PlotData([Entry(d, r), Entry(d, s)]) && s.fuelType in PlotData([Entry(d, r), Entry(d, s)])[d]
    ensures PlotData([Entry(d, r), Entry(d, s)])[d][s.fuelType] == s.price
  {
    var rows := [Entry(d, r), Entry(d, s)];
    assert rows[1..] == [Entry(d, s)] && rows[1..][1..] == [];
    var first := map[d := map[r.fuelType := r.price]];
    assert PlotInto(map[], rows) == PlotInto(first, [Entry(d, s)]);
    assert PlotInto(first, [Entry(d, s)]) == first[d := first[d][s.fuelType := s.price]];
  }

  // ---------------------------------------------------------------------
  // plot: the date axis
  // ---------------------------------------------------------------------

  /** The dates of the loop `while date <= end_date`, from `from`, that have
      plot data, in order; stepping past 9999-12-31 raises `OverflowError`. */
  function Axis(data: PlotMap, from: Date, end: Date): (r: Result<seq<Date>>)
    ensures r.Err? <==> LessEq(from, end) && Ordinal(end) == MaxOrdinal
    ensures r.Err? ==> r.error == OverflowError
    ensures r.Ok? ==> forall i :: 0 <= i < |r.value| ==>
      r.value[i] in data && LessEq(from, r.value[i]) && LessEq(r.value[i], end)
    ensures r.Ok? ==> forall i, j :: 0 <= i < j < |r.value| ==> Less(r.value[i], r.value[j])
    ensures r.Ok? ==> forall x :: x in data && LessEq(from, x) && LessEq(x, end) ==> x in r.value
    decreases Ordinal(end) + 1 - Ordinal(from)
  {
    if Less(end, from) then Ok([])
    else
      OrdinalBounds(end);
      SuccOrdinal(from);
      match Succ(from)
      case None => Err(OverflowError)
      case Some(next) =>
        match Axis(data, next, end)
        case Err(e) => Err(e)
        case Ok(rest) =>
          var here := if from in data then [from] else [];
          AxisStep(data, from, next, end, here, rest);
          Ok(here + rest)
  }

  /** The step of the axis: a date of the data at `from`, followed by the axis from the next day. */
  lemma AxisStep(data: PlotMap, from: Date, next: Date, end: Date, here: seq<Date>, rest: seq<Date>)
    requires Ordinal(next) == Ordinal(from) + 1 && LessEq(from, end)
    requires here == if from in data then [from] else []
    requires forall i :: 0 <= i < |rest| ==> rest[i] in data && LessEq(next, rest[i]) && LessEq(rest[i], end)
    requires forall i, j :: 0 <= i < j < |rest| ==> Less(rest[i], rest[j])
    requires forall x :: x in data && LessEq(next, x) && LessEq(x, end) ==> x in rest
    ensures forall i :: 0 <= i < |here + rest| ==> (here + rest)[i] in data && LessEq(from, (here + rest)[i]) && LessEq((here + rest)[i], end)
    ensures forall i, j :: 0 <= i < j < |here + rest| ==> Less((here + rest)[i], (here + rest)[j])
    ensures forall x :: x in data && LessEq(from, x) && LessEq(x, end) ==> x in here + rest
  {
    forall x | x in data && LessEq(from, x) && LessEq(x, end)
      ensures x in here + rest
    {
      if x == from {
        assert (here + rest)[0] == x;
      } else {
        OrdinalInjective(x, from);
        assert x in rest;
      }
    }
  }

  // ---------------------------------------------------------------------
  // plot: the price series
  // ---------------------------------------------------------------------

  /** `prices`, a `defaultdict(list)`: a missing fuel type reads as the empty list. */
  type Prices = map<FuelType, seq<Option<Decimal>>>

  function Get(prices: Prices, f: FuelType): seq<Option<Decimal>> {
    if f in prices then prices[f] else []
  }

  /** `data[date].get(fuel_type)`: the price, or None for a fuel type the date lacks. */
  function PriceOn(data: PlotMap, d: Date, f: FuelType): Option<Decimal> {
    if d in data && f in data[d] then data[d][f] else None
  }

  /** `for fuel_type in fuel_types: prices[fuel_type].append(data[date].get(fuel_type))`. */
  function AppendDay(prices: Prices, data: PlotMap, d: Date, types: seq<FuelType>): Prices
    decreases |types|
  {
    if types == [] then prices
    else AppendDay(prices[types[0] := Get(prices, types[0]) + [PriceOn(data, d, types[0])]], data, d, types[1..])
  }

  /** The prices appended for each date of the axis, in order. */
  function AppendDays(prices: Prices, data: PlotMap, dates: seq<Date>, types: seq<FuelType>): Prices
    decreases |dates|
  {
    if dates == [] then prices
    else AppendDays(AppendDay(prices, data, dates[0], types), data, dates[1..], types)
  }

  /** How many times f is listed. */
  function Occurrences(types: seq<FuelType>, f: FuelType): nat {
    if types == [] then 0 else (if types[0] == f then 1 else 0) + Occurrences(types[1..], f)
  }

  /** k copies of v. */
  function Repeat(v: Option<Decimal>, k: nat): (s: seq<Option<Decimal>>)
    ensures |s| == k && forall i :: 0 <= i < k ==> s[i] == v
  {
    seq(k, _ => v)
  }

  /** The series of f, reference form: for each date, its price once per listing of f. */
  function Series(data: PlotMap, dates: seq<Date>, k: nat, f: FuelType): seq<Option<Decimal>>
    decreases |dates|
  {
    if dates == [] then [] else Repeat(PriceOn(data, dates[0], f), k) + Series(data, dates[1..], k, f)
  }

  lemma {:induction false} AppendDayGet(prices: Prices, data: PlotMap, d: Date, types: seq<FuelType>, f: FuelType)
    ensures Get(AppendDay(prices, data, d, types), f) == Get(prices, f) + Repeat(PriceOn(data, d, f), Occurrences(types, f))
    decreases |types|
  {
    if types != [] {
      var v := PriceOn(data, d, f);
      var next := prices[types[0] := Get(prices, types[0]) + [PriceOn(data, d, types[0])]];
      AppendDayGet(next, data, d, types[1..], f);
      if types[0] == f {
        assert Get(next, f) + Repeat(v, Occurrences(types[1..], f)) == Get(prices, f) + Repeat(v, Occurrences(types, f));
      } else {
        assert Get(next, f) == Get(prices, f);
      }
    }
  }

  lemma {:induction false} AppendDaysGet(prices: Prices, data: PlotMap, dates: seq<Date>, types: seq<FuelType>, f: FuelType)
    ensures Get(AppendDays(prices, data, dates, types), f) == Get(prices, f) + Series(data, dates, Occurrences(types, f), f)
    decreases |dates|
  {
    if dates != [] {
      var next := AppendDay(prices, data, dates[0], types);
      AppendDayGet(prices, data, dates[0], types, f);
      AppendDaysGet(next, data, dates[1..], types, f);
    }
  }

  /** What `plot` draws: the date axis and the price lists. */
  datatype Plot = Plot(dates: seq<Date>, prices: Prices)

  /** The loop of `plot(data, start_date, end_date, fuel_types)`. */
  function PlotOf(data: PlotMap, start: Date, end: Date, types: seq<FuelType>): Result<Plot> {
    match Axis(data, start, end)
    case Err(e) => Err(e)
    case Ok(dates) => Ok(Plot(dates, AppendDays(map[], data, dates, types)))
  }

  /** The series of each fuel type repeats each date's price once per
      listing of the fuel type: a fuel type listed once has one price per
      date, and one not listed has none. */
  lemma {:induction false} PlotSeries(data: PlotMap, start: Date, end: Date, types: seq<FuelType>, f: FuelType)
    requires PlotOf(data, start, end, types).Ok?
    ensures var p := PlotOf(data, start, end, types).value;
      Get(p.prices, f) == Series(data, p.dates, Occurrences(types, f), f)
      && |Get(p.prices, f)| == |p.dates| * Occurrences(types, f)
    ensures var p := PlotOf(data, start, end, types).value;
      Occurrences(types, f) == 1 ==> forall i :: 0 <= i < |p.dates| ==> Get(p.prices, f)[i] == PriceOn(data, p.dates[i], f)
  {
    var p := PlotOf(data, start, end, types).value;
    AppendDaysGet(map[], data, p.dates, types, f);
    SeriesLength(data, p.dates, Occurrences(types, f), f);
    if Occurrences(types, f) == 1 {
      SeriesOnce(data, p.dates, f);
    }
  }

  lemma {:induction false} SeriesLength(data: PlotMap, dates: seq<Date>, k: nat, f: FuelType)
    ensures |Series(data, dates, k, f)| == |dates| * k
    decreases |dates|
  {
    if dates != [] {
      SeriesLength(data, dates[1..], k, f);
      assert |dates| * k == k + |dates[1..]| * k;
    }
  }

  lemma {:induction false} SeriesOnce(data: PlotMap, dates: seq<Date>, f: FuelType)
    ensures |Series(data, dates, 1, f)| == |dates|
    ensures forall i :: 0 <= i < |dates| ==> Series(data, dates, 1, f)[i] == PriceOn(data, dates[i], f)
    decreases |dates|
  {
    if dates != [] {
      SeriesOnce(data, dates[1..], f);
    }
  }

  // ---------------------------------------------------------------------
  // Drawing every fuel type
  // ---------------------------------------------------------------------

  /** The plotting library draws `ax.plot(dates, ys)` only when ys has one value per date. */
  predicate Drawable(dates: seq<Date>, ys: seq<Option<Decimal>>) {
    |ys| == |dates|
  }

  /** `for fuel_type in enums.FuelType: ax.plot(dates, prices[fuel_type])`: every fuel type's series can be drawn. */
  predicate PlotDrawable(p: Plot) {
    forall f: FuelType :: Drawable(p.dates, Get(p.prices, f))
  }

  /** As written, a fuel type left out of `--types` has an empty series, which
      cannot be drawn against a non-empty axis; so can a listed one listed twice. */
  lemma PlotAsWrittenNotDrawable(data: PlotMap, start: Date, end: Date, types: seq<FuelType>, f: FuelType)
    requires PlotOf(data, start, end, types).Ok? && PlotOf(data, start, end, types).value.dates != []
    requires Occurrences(types, f) != 1
    ensures !PlotDrawable(PlotOf(data, start, end, types).value)
  {
    var p := PlotOf(data, start, end, types).value;
    PlotSeries(data, start, end, types, f);
    ScaledLength(|p.dates|, Occurrences(types, f));
    assert !Drawable(p.dates, Get(p.prices, f));
  }

  /** n copies of k values, n > 0, are n values only when k is 1. */
  lemma ScaledLength(n: nat, k: nat)
    requires n > 0 && k != 1
    ensures n * k != n
  {
    if k > 1 {
      assert n * k == n + n * (k - 1);
    }
  }

  /** A concrete case: `--types DIESEL` with one day of data in range. */
  lemma PlotAsWrittenCounterexample(price: Decimal)
    ensures var d := Ymd(2023, 1, 2);
      var data := map[d := map[Diesel := Some(price)]];
      PlotOf(data, d, d, [Diesel]).Ok? && PlotOf(data, d, d, [Diesel]).value.dates == [d]
      && !PlotDrawable(PlotOf(data, d, d, [Diesel]).value)
  {
    var d := Ymd(2023, 1, 2);
    var data := map[d := map[Diesel := Some(price)]];
    var next := Ymd(2023, 1, 3);
    assert Succ(d) == Some(next);
    SuccOrdinal(d);
    assert Axis(data, next, d) == Ok([]);
    assert d in data && [d] + [] == [d];
    assert Axis(data, d, d) == Ok([d]);
    PlotAsWrittenNotDrawable(data, d, d, [Diesel], Gas);
  }

  /** The corrected drawing: a series for each distinct requested fuel type, each one value per date. */
  function DrawnSeries(p: Plot, types: seq<FuelType>): (r: seq<(FuelType, seq<Option<Decimal>>)>)
    ensures |r| == |Distinct(types)|
    ensures forall i :: 0 <= i < |r| ==> r[i].0 == Distinct(types)[i] && r[i].1 == Get(p.prices, r[i].0)
  {
    var ds := Distinct(types);
    seq(|ds|, i requires 0 <= i < |ds| => (ds[i], Get(p.prices, ds[i])))
  }

  /** The requested fuel types with repetitions removed, first listing kept. */
  function Distinct(types: seq<FuelType>): (r: seq<FuelType>)
    ensures forall f :: f in r <==> f in types
    ensures forall i, j :: 0 <= i < j < |r| ==> r[i] != r[j]
    decreases |types|
  {
    if types == [] then []
    else
      var rest := Distinct(types[1..]);
      if types[0] in types[1..] then rest
      else assert forall i :: 0 <= i < |rest| ==> rest[i] != types[0]; [types[0]] + rest
  }

  /** The plot over the distinct requested fuel types draws: every drawn series has one value per date, that date's price. */
  lemma DistinctPlotDrawable(data: PlotMap, start: Date, end: Date, types: seq<FuelType>)
    requires PlotOf(data, start, end, Distinct(types)).Ok?
    ensures var p := PlotOf(data, start, end, Distinct(types)).value;
      forall k :: 0 <= k < |DrawnSeries(p, types)| ==>
        Drawable(p.dates, DrawnSeries(p, types)[k].1)
        && forall i :: 0 <= i < |p.dates| ==> DrawnSeries(p, types)[k].1[i] == PriceOn(data, p.dates[i], DrawnSeries(p, types)[k].0)
  {
    var p := PlotOf(data, start, end, Distinct(types)).value;
    var ds := DrawnSeries(p, types);
    forall k | 0 <= k < |ds|
      ensures Drawable(p.dates, ds[k].1)
      ensures forall i :: 0 <= i < |p.dates| ==> ds[k].1[i] == PriceOn(data, p.dates[i], ds[k].0)
    {
      OccurrencesDistinct(Distinct(types), ds[k].0);
      PlotSeries(data, start, end, Distinct(types), ds[k].0);
    }
  }

  /** A member of a list without repetitions is listed once. */
  lemma {:induction false} OccurrencesDistinct(types: seq<FuelType>, f: FuelType)
    requires f in types && forall i, j :: 0 <= i < j < |types| ==> types[i] != types[j]
    ensures Occurrences(types, f) == 1
    decreases |types|
  {
    if types[0] == f {
      OccurrencesAbsent(types[1..], f);
    } else {
      OccurrencesDistinct(types[1..], f);
    }
  }

  lemma {:induction false} OccurrencesAbsent(types: seq<FuelType>, f: FuelType)
    requires f !in types
    ensures Occurrences(types, f) == 0
    decreases |types|
  {
    if types != [] {
      OccurrencesAbsent(types[1..], f);
    }
  }

  // ---------------------------------------------------------------------
  // The data source and the command's arguments
  // ---------------------------------------------------------------------

  /** `get_plot_data(start, end)`: the daily country rows of the range, latest first, as the storage returns them. */
  function GetPlotData(s: Store, start: Date, end: Date): PlotMap {
    PlotData(RangeQuery(TableOf(s, DailyCountry), start, end, None, true))
  }

  /** The plot data has exactly the dates of the range that have daily country rows. */
  lemma GetPlotDataDates(s: Store, start: Date, end: Date, d: Date)
    ensures d in GetPlotData(s, start, end) <==>
      LessEq(start, d) && LessEq(d, end) && exists e :: e in TableOf(s, DailyCountry) && e.date == d
  {
    var rows := RangeQuery(TableOf(s, DailyCountry), start, end, None, true);
    PlotDataDates(rows, d);
    if d in GetPlotData(s, start, end) {
      var i :| 0 <= i < |rows| && rows[i].date == d;
      RangeQueryMembers(TableOf(s, DailyCountry), start, end, None, true, rows[i]);
    }
    if LessEq(start, d) && LessEq(d, end) && exists e :: e in TableOf(s, DailyCountry) && e.date == d {
      var e :| e in TableOf(s, DailyCountry) && e.date == d;
      RangeQueryMembers(TableOf(s, DailyCountry), start, end, None, true, e);
      var i :| 0 <= i < |rows| && rows[i] == e;
    }
  }

  /** `parse_fuel_type`. */
  function ParseFuelTypes(s: string): Result<Option<seq<FuelType>>> {
    Arguments.ParseNames(s, FuelTypeFromName)
  }

  /** An empty argument means no selection; otherwise each comma-separated
      name, in any letter case, must name a fuel type, and the fuel types
      come back in the order listed. */
  lemma ParseFuelTypesMeaning(s: string)
    ensures ParseFuelTypes(s) == Ok(None) <==> s == ""
    ensures ParseFuelTypes(s).Err? ==> ParseFuelTypes(s).error == ArgumentTypeError
    ensures ParseFuelTypes(s).Ok? && s != "" ==> var parts := Text.SplitOn(Text.Upper(s), ',');
      |ParseFuelTypes(s).value.value| == |parts|
      && forall i :: 0 <= i < |parts| ==> FuelTypeName(ParseFuelTypes(s).value.value[i]) == parts[i]
  {
  }

  /** The names of fuel types joined with commas parse back to the fuel types. */
  lemma ParseFuelTypesRoundTrip(xs: seq<FuelType>)
    requires xs != []
    ensures ParseFuelTypes(Text.Join(Arguments.Each(xs, FuelTypeName), ",")) == Ok(Some(xs))
  {
    forall i | 0 <= i < |xs|
      ensures FuelTypeFromName(FuelTypeName(xs[i])) == Ok(xs[i])
      ensures Text.NoLower(FuelTypeName(xs[i])) && ',' !in FuelTypeName(xs[i])
    {
      FuelTypeNameRoundTrip(xs[i]);
      FuelTypeNameUpper(xs[i]);
    }
    Arguments.ParseNamesRoundTrip(xs, FuelTypeName, FuelTypeFromName);
  }

  /** Fuel type names are upper case and free of commas. */
  lemma FuelTypeNameUpper(x: FuelType)
    ensures Text.NoLower(FuelTypeName(x)) && ',' !in FuelTypeName(x)
  {
    match x
    case Unleaded95 =>
    case Unleaded100 =>
    case Super =>
    case Diesel =>
    case DieselHeating =>
    case Gas =>
  }

  /** The arguments of a `graph` run once the defaults of `main` are filled in. */
  datatype Settings = Settings(start: Date, end: Date, types: seq<FuelType>)

  /** `main`: the end date defaults to today, the start date to MAX_DAYS
      days before the end date, the fuel types to all of them. */
  function Defaults(start: Option<Date>, end: Option<Date>, types: Option<seq<FuelType>>, today: Date, maxDays: nat): (r: Result<Settings>)
    ensures r.Err? <==> start.None? && Ordinal(if end.Some? then end.value else today) - maxDays < 1
    ensures r.Err? ==> r.error == OverflowError
    ensures r.Ok? ==> r.value.end == (if end.Some? then end.value else today)
    ensures r.Ok? && start.Some? ==> r.value.start == start.value
    ensures r.Ok? && start.None? ==> DaysBetween(r.value.start, r.value.end) == maxDays
    ensures r.Ok? ==> r.value.types == (if types.Some? then types.value else AllFuelTypes())
  {
    var e := if end.Some? then end.value else today;
    var ts := if types.Some? then types.value else AllFuelTypes();
    if start.Some? then Ok(Settings(start.value, e, ts))
    else
      AddDaysOrdinal(e, -(maxDays as int));
      OrdinalBounds(e);
      match AddDays(e, -(maxDays as int))
      case None => Err(OverflowError)
      case Some(s) => Ok(Settings(s, e, ts))
  }
}
