/** The bulletin parsers: choosing a parser for a file type, reading the date
    from the stored file name, turning matched text into numbers, the rule that
    says which fuel types a bulletin should report on a date, and the assembly
    of country and prefecture records from what the searches matched.

    The regular expressions that find labels and values in the PDF text are
    not modelled. A `Matchers` value stands for them: for a text it gives the
    groups each search captures, or `None` when the search fails.
 */
module Parser {
  import opened Options
  import opened Text
  import opened Numbers
  import opened Calendar
  import opened DateFormat
  import opened Enums
  import opened Records

  // ---------------------------------------------------------------------
  // Parser.get
  // ---------------------------------------------------------------------

  datatype ParserKind = WeeklyParser | DailyCountryParser | DailyPrefectureParser

  /** `Parser.get`: the parser class for a file type. */
  function ParserFor(t: DataFileType): ParserKind {
    match t
    case Weekly => WeeklyParser
    case DailyCountryFile => DailyCountryParser
    case DailyPrefectureFile => DailyPrefectureParser
  }

  // ---------------------------------------------------------------------
  // Numbers from matched text
  // ---------------------------------------------------------------------

  /** `Parser.parse_number_of_stations`: no text gives no number; otherwise
      `int()` of the text with its '.' thousands separators removed. */
  function ParseNumberOfStations(text: Option<string>): (r: Result<Option<int>>)
    ensures (r.Ok? && r.value.None?) <==> (text.None? || text.value == [])
    ensures r.Err? ==> r.error == ValueError
  {
    if text.Some? && text.value != [] then
      match ParseInt(RemoveChar(text.value, '.'))
      case Ok(n) => Ok(Some(n))
      case Err(e) => Err(e)
    else Ok(None)
  }

  /** Digits with a '.' thousands separator are read as the digits alone: "1.234" is 1234. */
  lemma StationsWithSeparator(a: string, b: string)
    requires AllDigits(a) && AllDigits(b) && a != []
    ensures var r := ParseNumberOfStations(Some(a + "." + b));
      r.Ok? && r.value.Some? && r.value.value == DigitsValue(a + b)
  {
    DigitsWithoutPoint(a);
    DigitsWithoutPoint(b);
    var t := a + "." + b;
    RemoveAround(a, ".", b, '.');
    assert RemoveChar(".", '.') == "";
    assert a + "" + b == a + b;
    DigitsConcat(a, b);
    ParseIntOfDigits(a + b);
    assert ParseInt(RemoveChar(t, '.')) == Ok(DigitsValue(a + b));
  }

  /** The number of stations written without separator is read back unchanged. */
  lemma StationsOfNat(n: nat)
    ensures ParseNumberOfStations(Some(NatToString(n))) == Ok(Some(n))
  {
    NatToStringValue(n);
    DigitsWithoutPoint(NatToString(n));
    RemoveAbsentChar(NatToString(n), '.');
    ParseIntOfNat(n);
  }

  /** The text `parse_price` hands to `decimal.Decimal`: spaces removed, ','
      read as '.', '-' removed, then surrounding whitespace stripped. */
  function CleanPrice(text: string): (c: string)
    ensures '-' !in c && ' ' !in c && ',' !in c
  {
    var t := RemoveChar(ReplaceChar(RemoveChar(text, ' '), ',', "."), '-');
    assert ' ' !in ReplaceChar(RemoveChar(text, ' '), ',', ".") by {
      ReplaceKeeps(RemoveChar(text, ' '), ',', ".", ' ');
    }
    assert ',' !in RemoveChar(ReplaceChar(RemoveChar(text, ' '), ',', "."), '-') by {
      RemoveKeeps(ReplaceChar(RemoveChar(text, ' '), ',', "."), '-', ',');
    }
    assert ' ' !in t by {
      RemoveKeeps(ReplaceChar(RemoveChar(text, ' '), ',', "."), '-', ' ');
    }
    StripWithin(t);
    Strip(t)
  }

  /** `Parser.parse_price`: no price when nothing is left after cleaning, otherwise `decimal.Decimal` of the cleaned text. */
  function ParsePrice(text: string): (r: Result<Option<Decimal>>)
    ensures (r.Ok? && r.value.None?) <==> CleanPrice(text) == []
    ensures r.Err? ==> r.error == InvalidOperation
    ensures r.Ok? && r.value.Some? ==> !r.value.value.negative
  {
    var cleaned := CleanPrice(text);
    if cleaned == [] then Ok(None)
    else
      assert Strip(cleaned) == cleaned && cleaned[0] != '-' by {
        StripUnspaced(cleaned);
        assert cleaned[0] in cleaned;
      }
      match ParseDecimal(cleaned)
      case Ok(d) => Ok(Some(d))
      case Err(e) => Err(e)
  }

  /** A price written with a decimal comma is read with that many decimal places: "1,234" is 1.234. */
  lemma PriceWithComma(a: string, b: string)
    requires AllDigits(a) && AllDigits(b) && a != []
    ensures ParsePrice(a + "," + b) == Ok(Some(Decimal(false, DigitsValue(a + b), -|b|)))
  {
    var s := a + "," + b;
    DigitsWithoutPoint(a);
    DigitsWithoutPoint(b);
    CleanDigitsComma(a, b);
    PointedDecimal(a, b);
  }

  /** Cleaning digits around a comma gives the same digits around a point. */
  lemma CleanDigitsComma(a: string, b: string)
    requires AllDigits(a) && AllDigits(b) && a != []
    ensures CleanPrice(a + "," + b) == a + "." + b
  {
    NoSymbols(a);
    NoSymbols(b);
    RemoveAround(a, ",", b, ' ');
    assert RemoveChar(",", ' ') == ",";
    CleanSeparated(a + "," + b, a, ',', b);
  }

  /** Once the spaces are gone, digits around a comma or a point clean to the digits around a point. */
  lemma CleanSeparated(text: string, a: string, sep: char, b: string)
    requires AllDigits(a) && AllDigits(b) && a != [] && (sep == ',' || sep == '.')
    requires RemoveChar(text, ' ') == a + [sep] + b
    ensures CleanPrice(text) == a + "." + b
  {
    SeparatorAsPoint(a, sep, b);
    PointedClean(a, b);
  }

  /** Reading the separator as a point leaves the digits around it. */
  lemma SeparatorAsPoint(a: string, sep: char, b: string)
    requires AllDigits(a) && AllDigits(b) && (sep == ',' || sep == '.')
    ensures ReplaceChar(a + [sep] + b, ',', ".") == a + "." + b
  {
    NoSymbols(a);
    NoSymbols(b);
    ReplaceAround(a, [sep], b, ',', ".");
    assert ReplaceChar([sep], ',', ".") == ".";
  }

  /** Digits around a point have no dash to remove and no whitespace to strip. */
  lemma PointedClean(a: string, b: string)
    requires AllDigits(a) && AllDigits(b) && a != []
    ensures var m := a + "." + b; RemoveChar(m, '-') == m && Strip(m) == m
  {
    var m := a + "." + b;
    NoSymbols(a);
    NoSymbols(b);
    RemoveAround(a, ".", b, '-');
    assert RemoveChar(".", '-') == ".";
    PointedEnds(a, b);
    StripUnspaced(m);
  }

  /** A dash, the mark for a missing price, gives no price. */
  lemma DashIsNoPrice()
    ensures ParsePrice("-") == Ok(None)
  {
    assert RemoveChar("-", ' ') == "-";
    assert ReplaceChar("-", ',', ".") == "-";
    assert RemoveChar("-", '-') == "";
  }

  // ---------------------------------------------------------------------
  // Parser.data_should_exist
  // ---------------------------------------------------------------------

  /** The last day with SUPER data. */
  const SuperLastDay: Date := Ymd(2022, 8, 5)

  /** The last day without GAS data. */
  const GasMissingUntil: Date := Ymd(2012, 6, 1)

  /** The last day on which the prefecture table places the heating column before GAS. */
  const HeatingBeforeGasUntil: Date := Ymd(2020, 5, 31)

  /** `Parser.data_should_exist`. */
  predicate DataShouldExist(f: FuelType, d: Date) {
    if f == Super && LessEq(SuperLastDay, d) then false
    else if f == Gas && LessEq(d, GasMissingUntil) then false
    else if f == DieselHeating && !((d.month >= 10 && d.day >= 15) || d.month <= 4) then false
    else true
  }

  /** SUPER is expected exactly on the days before 5 August 2022, in Python's date order. */
  lemma SuperExpected(d: Date)
    ensures DataShouldExist(Super, d) <==> TupleLess(d, SuperLastDay)
  {
    LessIsTupleLess(d, SuperLastDay);
  }

  /** GAS is expected exactly on the days after 1 June 2012, in Python's date order. */
  lemma GasExpected(d: Date)
    ensures DataShouldExist(Gas, d) <==> TupleLess(GasMissingUntil, d)
  {
    LessIsTupleLess(GasMissingUntil, d);
  }

  /** The DIESEL_HEATING season, month by month: January to April always,
      May to September never, October to December only from the 15th of the month. */
  lemma HeatingSeason(d: Date)
    ensures d.month <= 4 ==> DataShouldExist(DieselHeating, d)
    ensures 5 <= d.month <= 9 ==> !DataShouldExist(DieselHeating, d)
    ensures d.month >= 10 ==> (DataShouldExist(DieselHeating, d) <==> d.day >= 15)
  {
  }

  /** So 1 November and 14 December give false, inside the heating season. */
  lemma HeatingGaps(year: int)
    requires MinYear <= year <= MaxYear
    ensures !DataShouldExist(DieselHeating, Ymd(year, 11, 1))
    ensures !DataShouldExist(DieselHeating, Ymd(year, 12, 14))
  {
  }

  /** Unleaded and diesel fuels are always expected. */
  lemma AlwaysExpected(f: FuelType, d: Date)
    requires f == Unleaded95 || f == Unleaded100 || f == Diesel
    ensures DataShouldExist(f, d)
  {
  }

  // ---------------------------------------------------------------------
  // What the searches match
  // ---------------------------------------------------------------------

  /** The span of a match, `match.start(0)` and `match.end(0)`. */
  datatype Span = Span(start: nat, end: nat)

  /** The groups of a country-data search: the optional number of stations and the price. */
  datatype CountryGroups = CountryGroups(stations: Option<string>, price: string)

  /** The price patterns of the prefecture table, named after the column they were written for. */
  datatype CellPattern = Unleaded95Cell | Unleaded100Cell | SuperCell | DieselCell | HeatingCell | GasCell

  /** The pattern written for a fuel type's column. */
  function CellFor(f: FuelType): CellPattern {
    match f
    case Unleaded95 => Unleaded95Cell
    case Unleaded100 => Unleaded100Cell
    case Super => SuperCell
    case Diesel => DieselCell
    case DieselHeating => HeatingCell
    case Gas => GasCell
  }

  /** Stand-ins for the regular-expression searches on a text.
      `country(text, f)`: the label and values search for fuel type f.
      `prefecture(text, p, cells)`: the row search for prefecture p with one group per cell pattern.
      `countryEnd` and `prefectureEnd`: the markers that end the weekly country and prefecture sections. */
  datatype Matchers = Matchers(
    country: (string, FuelType) -> Option<CountryGroups>,
    prefecture: (string, Prefecture, seq<CellPattern>) -> Option<seq<string>>,
    countryEnd: string -> Option<Span>,
    prefectureEnd: string -> Option<Span>)

  /** A row search captures one group per cell pattern of the row pattern. */
  ghost predicate WellFormed(m: Matchers) {
    forall t, p, cells :: m.prefecture(t, p, cells).Some? ==> |m.prefecture(t, p, cells).value| == |cells|
  }

  /** The shape `(?:\d\.)?\d{1,3}` of the stations group. */
  predicate StationsShape(s: string) {
    (1 <= |s| <= 3 && AllDigits(s))
    || (3 <= |s| <= 5 && IsDigit(s[0]) && s[1] == '.' && AllDigits(s[2..]))
  }

  /** The shape `\d[,.][\d ]{3,4}` of the price group. */
  predicate PriceShape(s: string) {
    (|s| == 5 || |s| == 6) && IsDigit(s[0]) && (s[1] == ',' || s[1] == '.')
    && forall i :: 2 <= i < |s| ==> IsDigit(s[i]) || s[i] == ' '
  }

  predicate GroupsShaped(g: CountryGroups) {
    (g.stations.None? || StationsShape(g.stations.value)) && PriceShape(g.price)
  }

  /** Text of the stations shape is always a number. */
  lemma StationsShapeParses(s: string)
    requires StationsShape(s)
    ensures ParseNumberOfStations(Some(s)).Ok?
  {
    if 1 <= |s| <= 3 && AllDigits(s) {
      DigitsWithoutPoint(s);
      RemoveAbsentChar(s, '.');
      ParseIntOfDigits(s);
    } else {
      assert s == s[..1] + "." + s[2..];
      StationsWithSeparator(s[..1], s[2..]);
    }
  }

  /** Text of the price shape is always a price. */
  lemma PriceShapeParses(s: string)
    requires PriceShape(s)
    ensures ParsePrice(s).Ok? && ParsePrice(s).value.Some?
  {
    var a := s[..1];
    var sep := s[1];
    var tail := s[2..];
    var b := RemoveChar(tail, ' ');
    assert forall i :: 0 <= i < |tail| ==> IsDigit(tail[i]) || tail[i] == ' ';
    SpacedDigits(tail);
    assert s == a + [sep] + tail;
    assert ' ' !in a + [sep];
    RemoveCharConcat(a + [sep], tail, ' ');
    RemoveAbsentChar(a + [sep], ' ');
    CleanSeparated(s, a, sep, b);
    PointedDecimal(a, b);
  }

  /** Removing the spaces from digits and spaces leaves digits. */
  lemma {:induction false} SpacedDigits(s: string)
    requires forall i :: 0 <= i < |s| ==> IsDigit(s[i]) || s[i] == ' '
    ensures AllDigits(RemoveChar(s, ' '))
  {
    if s != [] {
      SpacedDigits(s[1..]);
    }
  }

  // ---------------------------------------------------------------------
  // CountryParser.extract_country_data
  // ---------------------------------------------------------------------

  /** The record for one fuel type, if its search matched. */
  function CountryRecordFor(text: string, f: FuelType, m: Matchers): (r: Result<Option<Record>>)
    ensures r.Ok? ==> (r.value.Some? <==> m.country(text, f).Some?)
    ensures r.Ok? && r.value.Some? ==> r.value.value.CountryRecord? && r.value.value.fuelType == f
  {
    match m.country(text, f)
    case None => Ok(None)
    case Some(g) =>
      var stations :- ParseNumberOfStations(g.stations);
      var price :- ParsePrice(g.price);
      Ok(Some(CountryRecord(f, stations, price)))
  }

  /** Groups of the shapes the value patterns capture always convert. */
  lemma ShapedGroupsConvert(text: string, f: FuelType, m: Matchers)
    ensures m.country(text, f).Some? && GroupsShaped(m.country(text, f).value) ==> CountryRecordFor(text, f, m).Ok?
  {
    if m.country(text, f).Some? && GroupsShaped(m.country(text, f).value) {
      var g := m.country(text, f).value;
      if g.stations.Some? {
        StationsShapeParses(g.stations.value);
      }
      PriceShapeParses(g.price);
    }
  }

  /** The records of the fuel types fs, in the order of fs; the first failed conversion is raised. */
  function CountryRecords(text: string, fs: seq<FuelType>, m: Matchers): (r: Result<seq<Record>>)
    ensures r.Ok? ==> |r.value| <= |fs|
    ensures r.Ok? ==> forall k :: 0 <= k < |r.value| ==> r.value[k].CountryRecord?
  {
    if fs == [] then Ok([])
    else
      var first :- CountryRecordFor(text, fs[0], m);
      var rest :- CountryRecords(text, fs[1..], m);
      Ok((if first.Some? then [first.value] else []) + rest)
  }

  /** When every matched group has the shapes the value patterns capture, no conversion fails. */
  lemma {:induction false} CountryRecordsShaped(text: string, fs: seq<FuelType>, m: Matchers)
    requires forall k :: 0 <= k < |fs| && m.country(text, fs[k]).Some? ==> GroupsShaped(m.country(text, fs[k]).value)
    ensures CountryRecords(text, fs, m).Ok?
  {
    if fs != [] {
      ShapedGroupsConvert(text, fs[0], m);
      CountryRecordsShaped(text, fs[1..], m);
    }
  }

  /** The fuel types of a list of records, in order. */
  function FuelTypesOf(rs: seq<Record>): seq<FuelType> {
    if rs == [] then [] else [rs[0].fuelType] + FuelTypesOf(rs[1..])
  }

  /** The fuel types of fs whose search matches, in the order of fs. */
  function Matched(text: string, fs: seq<FuelType>, m: Matchers): seq<FuelType> {
    if fs == [] then []
    else (if m.country(text, fs[0]).Some? then [fs[0]] else []) + Matched(text, fs[1..], m)
  }

  /** The records carry the matched fuel types, in the order of fs. */
  lemma {:induction false} CountryRecordsFuelTypes(text: string, fs: seq<FuelType>, m: Matchers)
    requires CountryRecords(text, fs, m).Ok?
    ensures FuelTypesOf(CountryRecords(text, fs, m).value) == Matched(text, fs, m)
  {
    if fs != [] {
      var first := CountryRecordFor(text, fs[0], m).value;
      var rest := CountryRecords(text, fs[1..], m).value;
      CountryRecordsFuelTypes(text, fs[1..], m);
      if first.Some? {
        var rs := [first.value] + rest;
        assert rs[1..] == rest;
      } else {
        assert [] + rest == rest;
      }
    }
  }

  /** `extract_country_data`: the records of every fuel type whose search matches, in declaration order. */
  function CountryData(text: string, m: Matchers): (r: Result<seq<Record>>)
    ensures r.Ok? ==> |r.value| <= 6
    ensures r.Ok? ==> forall k :: 0 <= k < |r.value| ==> r.value[k].CountryRecord?
  {
    CountryRecords(text, AllFuelTypes(), m)
  }

  /** Country records come in strictly increasing declaration order of their fuel types. */
  lemma CountryDataOrder(text: string, m: Matchers)
    requires CountryData(text, m).Ok?
    ensures Ascending(FuelTypesOf(CountryData(text, m).value))
  {
    FuelTypeOrder();
    CountryRecordsFuelTypes(text, AllFuelTypes(), m);
    MatchedOrder(text, AllFuelTypes(), m);
  }

  /** A fuel type has a country record exactly when its search matched. */
  lemma CountryDataMatched(text: string, m: Matchers)
    requires CountryData(text, m).Ok?
    ensures forall f :: f in FuelTypesOf(CountryData(text, m).value) <==> m.country(text, f).Some?
  {
    CountryRecordsFuelTypes(text, AllFuelTypes(), m);
    forall f
      ensures f in Matched(text, AllFuelTypes(), m) <==> m.country(text, f).Some?
    {
      FuelTypeListed(f);
      MatchedMembers(text, AllFuelTypes(), m, f);
    }
  }

  /** Fuel types in strictly increasing declaration order. */
  predicate Ascending(fs: seq<FuelType>) {
    forall i, j :: 0 <= i < j < |fs| ==> FuelTypeIndex(fs[i]) < FuelTypeIndex(fs[j])
  }

  lemma {:induction false} MatchedOrder(text: string, fs: seq<FuelType>, m: Matchers)
    requires Ascending(fs)
    ensures Ascending(Matched(text, fs, m))
    ensures forall g :: g in Matched(text, fs, m) ==> g in fs
  {
    if fs != [] {
      var tail := fs[1..];
      assert Ascending(tail) by {
        forall i, j | 0 <= i < j < |tail|
          ensures FuelTypeIndex(tail[i]) < FuelTypeIndex(tail[j])
        {
          assert tail[i] == fs[i + 1] && tail[j] == fs[j + 1];
        }
      }
      MatchedOrder(text, tail, m);
      var rest := Matched(text, tail, m);
      forall g | g in rest
        ensures FuelTypeIndex(fs[0]) < FuelTypeIndex(g) && g in fs
      {
        assert g in tail;
        var j :| 0 <= j < |tail| && tail[j] == g;
        assert fs[j + 1] == g;
      }
      if m.country(text, fs[0]).Some? {
        var ms := [fs[0]] + rest;
        assert Matched(text, fs, m) == ms;
        forall i, j | 0 <= i < j < |ms|
          ensures FuelTypeIndex(ms[i]) < FuelTypeIndex(ms[j])
        {
          var b := rest[j - 1];
          assert ms[j] == b;
          assert b in rest;
          if i > 0 {
            assert ms[i] == rest[i - 1];
          }
        }
      } else {
        assert Matched(text, fs, m) == rest;
      }
    }
  }

  lemma {:induction false} MatchedMembers(text: string, fs: seq<FuelType>, m: Matchers, f: FuelType)
    ensures f in Matched(text, fs, m) <==> f in fs && m.country(text, f).Some?
  {
    if fs != [] {
      MatchedMembers(text, fs[1..], m, f);
      assert f in fs <==> f == fs[0] || f in fs[1..];
    }
  }

  // ---------------------------------------------------------------------
  // PrefectureParser.extract_prefecture_data
  // ---------------------------------------------------------------------

  /** The fuel types of the prefecture table columns: SUPER third when the text
      mentions "Super", DIESEL_HEATING last when it should exist on the date. */
  function ColumnFuelTypes(hasSuper: bool, d: Date): (fs: seq<FuelType>)
    ensures Super in fs <==> hasSuper
    ensures DieselHeating in fs <==> DataShouldExist(DieselHeating, d)
    ensures |fs| >= 4 && fs[0] == Unleaded95 && fs[1] == Unleaded100
    ensures forall i, j :: 0 <= i < j < |fs| ==> fs[i] != fs[j]
  {
    var base := if hasSuper then [Unleaded95, Unleaded100, Super, Diesel, Gas] else [Unleaded95, Unleaded100, Diesel, Gas];
    if DataShouldExist(DieselHeating, d) then base + [DieselHeating] else base
  }

  /** The price patterns of the row search, built next to the column list: the
      heating pattern goes before the GAS pattern up to 31 May 2020 and after it later. */
  function ColumnPatterns(hasSuper: bool, d: Date): (ps: seq<CellPattern>)
    ensures |ps| == |ColumnFuelTypes(hasSuper, d)|
  {
    var base := if hasSuper then [Unleaded95Cell, Unleaded100Cell, SuperCell, DieselCell, GasCell]
      else [Unleaded95Cell, Unleaded100Cell, DieselCell, GasCell];
    if DataShouldExist(DieselHeating, d) then
      if LessEq(d, HeatingBeforeGasUntil) then base[..|base| - 1] + [HeatingCell] + base[|base| - 1..]
      else base + [HeatingCell]
    else base
  }

  /** Without a heating column, or after 31 May 2020, every column is read with its own fuel type's pattern. */
  lemma ColumnsAligned(hasSuper: bool, d: Date)
    requires !DataShouldExist(DieselHeating, d) || Less(HeatingBeforeGasUntil, d)
    ensures var fs := ColumnFuelTypes(hasSuper, d);
      forall i :: 0 <= i < |fs| ==> ColumnPatterns(hasSuper, d)[i] == CellFor(fs[i])
  {
  }

  /** In the heating season up to 31 May 2020 the last two columns cross: the
      value labelled GAS is read with the heating pattern and the value labelled
      DIESEL_HEATING with the GAS pattern; all earlier columns keep their own. */
  lemma ColumnsCrossed(hasSuper: bool, d: Date)
    requires DataShouldExist(DieselHeating, d) && LessEq(d, HeatingBeforeGasUntil)
    ensures var fs := ColumnFuelTypes(hasSuper, d);
      var ps := ColumnPatterns(hasSuper, d);
      var n := |fs|;
      n >= 2 && fs[n - 2] == Gas && ps[n - 2] == HeatingCell
      && fs[n - 1] == DieselHeating && ps[n - 1] == GasCell
      && forall i :: 0 <= i < n - 2 ==> ps[i] == CellFor(fs[i])
  {
  }

  /** A converted cell holding a truthy price. */
  predicate Truthful(price: Option<Decimal>) {
    price.Some? && DecimalTruthy(price.value)
  }

  /** The prices of a matched row's cells, converted in order; the first failed conversion is raised. */
  function ParseCells(cells: seq<string>): (r: Result<seq<Option<Decimal>>>)
    ensures r.Ok? ==> |r.value| == |cells|
    ensures r.Ok? ==> forall i :: 0 <= i < |cells| ==> ParsePrice(cells[i]) == Ok(r.value[i])
    ensures r.Err? ==> exists i :: 0 <= i < |cells| && ParsePrice(cells[i]) == Err(r.error)
  {
    var conversions := PriceConversions(cells);
    var r := Collect(conversions);
    assert r.Ok? ==> forall i :: 0 <= i < |cells| ==> conversions[i] == Ok(r.value[i]);
    r
  }

  /** The conversion of each cell. */
  function PriceConversions(cells: seq<string>): (rs: seq<Result<Option<Decimal>>>)
    ensures |rs| == |cells| && forall i :: 0 <= i < |cells| ==> rs[i] == ParsePrice(cells[i])
  {
    seq(|cells|, i requires 0 <= i < |cells| => ParsePrice(cells[i]))
  }

  /** The conversion fails exactly when some cell does not convert, and then with `InvalidOperation`. */
  lemma ParseCellsFails(cells: seq<string>)
    ensures ParseCells(cells).Err? <==> exists i :: 0 <= i < |cells| && ParsePrice(cells[i]).Err?
    ensures ParseCells(cells).Err? ==> ParseCells(cells).error == InvalidOperation
  {
    var r := ParseCells(cells);
    if r.Err? {
      var i :| 0 <= i < |cells| && ParsePrice(cells[i]) == Err(r.error);
    } else {
      forall i | 0 <= i < |cells| ensures ParsePrice(cells[i]).Ok? {
        assert ParsePrice(cells[i]) == Ok(r.value[i]);
      }
    }
  }

  /** The records of one matched prefecture row: one per column whose price is truthy, in column order. */
  function RowRecords(p: Prefecture, fs: seq<FuelType>, prices: seq<Option<Decimal>>): (rs: seq<Record>)
    requires |prices| == |fs|
    ensures forall k :: 0 <= k < |rs| ==>
      rs[k].PrefectureRecord? && rs[k].prefecture == p && DecimalTruthy(rs[k].prefecturePrice) && rs[k].fuelType in fs
  {
    if fs == [] then []
    else
      (if Truthful(prices[0]) then [PrefectureRecord(p, fs[0], prices[0].value)] else [])
      + RowRecords(p, fs[1..], prices[1..])
  }

  /** A row yields a record for a column exactly when that column's price is truthy. */
  lemma {:induction false} RowRecordsCells(p: Prefecture, fs: seq<FuelType>, prices: seq<Option<Decimal>>)
    requires |prices| == |fs|
    ensures forall i :: 0 <= i < |fs| && Truthful(prices[i]) ==>
      PrefectureRecord(p, fs[i], prices[i].value) in RowRecords(p, fs, prices)
    ensures forall r :: r in RowRecords(p, fs, prices) ==>
      (exists i :: 0 <= i < |fs| && Truthful(prices[i]) && r == PrefectureRecord(p, fs[i], prices[i].value))
  {
    if fs != [] {
      var rs := RowRecords(p, fs, prices);
      var rest := RowRecords(p, fs[1..], prices[1..]);
      RowRecordsCells(p, fs[1..], prices[1..]);
      forall i | 0 <= i < |fs| && Truthful(prices[i])
        ensures PrefectureRecord(p, fs[i], prices[i].value) in rs
      {
        if i > 0 {
          assert fs[1..][i - 1] == fs[i] && prices[1..][i - 1] == prices[i];
        }
      }
      forall r | r in rs
        ensures exists i :: 0 <= i < |fs| && Truthful(prices[i]) && r == PrefectureRecord(p, fs[i], prices[i].value)
      {
        if r !in rest {
          assert r == PrefectureRecord(p, fs[0], prices[0].value);
        } else {
          var i :| 0 <= i < |fs[1..]| && Truthful(prices[1..][i]) && r == PrefectureRecord(p, fs[1..][i], prices[1..][i].value);
          assert fs[1..][i] == fs[i + 1] && prices[1..][i] == prices[i + 1];
        }
      }
    }
  }

  /** The records of the prefectures ps, in the order of ps, skipping those whose row search fails. */
  function PrefectureRecords(text: string, ps: seq<Prefecture>, fs: seq<FuelType>, cells: seq<CellPattern>, m: Matchers)
    : (r: Result<seq<Record>>)
    requires WellFormed(m) && |cells| == |fs|
    ensures r.Ok? ==> forall k :: 0 <= k < |r.value| ==>
      r.value[k].PrefectureRecord? && r.value[k].prefecture in ps && m.prefecture(text, r.value[k].prefecture, cells).Some?
      && DecimalTruthy(r.value[k].prefecturePrice) && r.value[k].fuelType in fs
  {
    if ps == [] then Ok([])
    else
      var first :- PrefectureRow(text, ps[0], fs, cells, m);
      var rest :- PrefectureRecords(text, ps[1..], fs, cells, m);
      Ok(first + rest)
  }

  /** The records of prefecture p's row: none when its search fails, the
      first failed conversion raised. */
  function PrefectureRow(text: string, p: Prefecture, fs: seq<FuelType>, cells: seq<CellPattern>, m: Matchers)
    : (r: Result<seq<Record>>)
    requires WellFormed(m) && |cells| == |fs|
    ensures r.Ok? ==> forall k :: 0 <= k < |r.value| ==>
      r.value[k].PrefectureRecord? && r.value[k].prefecture == p && m.prefecture(text, p, cells).Some?
      && DecimalTruthy(r.value[k].prefecturePrice) && r.value[k].fuelType in fs
  {
    match m.prefecture(text, p, cells)
    case None => Ok([])
    case Some(groups) =>
      var prices :- ParseCells(groups);
      Ok(RowRecords(p, fs, prices))
  }

  /** A row's records are exactly those its columns yield. */
  lemma PrefectureRowCells(text: string, p: Prefecture, fs: seq<FuelType>, cells: seq<CellPattern>, m: Matchers)
    requires WellFormed(m) && |cells| == |fs| && PrefectureRow(text, p, fs, cells, m).Ok?
    ensures forall rec :: rec in PrefectureRow(text, p, fs, cells, m).value <==> Yields(text, p, fs, cells, m, rec)
  {
    var groups := m.prefecture(text, p, cells);
    if groups.Some? {
      var prices := ParseCells(groups.value).value;
      var row := RowRecords(p, fs, prices);
      assert PrefectureRow(text, p, fs, cells, m).value == row;
      RowRecordsCells(p, fs, prices);
      forall rec | rec in row
        ensures Yields(text, p, fs, cells, m, rec)
      {
        var i :| 0 <= i < |fs| && Truthful(prices[i]) && rec == PrefectureRecord(p, fs[i], prices[i].value);
        assert CellRecord(text, p, fs, cells, m, i) == Some(rec);
      }
      forall rec | Yields(text, p, fs, cells, m, rec)
        ensures rec in row
      {
        var i :| 0 <= i < |fs| && CellRecord(text, p, fs, cells, m, i) == Some(rec);
        assert Truthful(prices[i]) && rec == PrefectureRecord(p, fs[i], prices[i].value);
      }
    }
  }

  /** A successful run is the first prefecture's row followed by the rest. */
  lemma PrefectureRecordsStep(text: string, ps: seq<Prefecture>, fs: seq<FuelType>, cells: seq<CellPattern>, m: Matchers)
    requires WellFormed(m) && |cells| == |fs| && ps != []
    requires PrefectureRecords(text, ps, fs, cells, m).Ok?
    ensures PrefectureRow(text, ps[0], fs, cells, m).Ok? && PrefectureRecords(text, ps[1..], fs, cells, m).Ok?
    ensures PrefectureRecords(text, ps, fs, cells, m).value
      == PrefectureRow(text, ps[0], fs, cells, m).value + PrefectureRecords(text, ps[1..], fs, cells, m).value
  {
  }

  /** The record that column i of prefecture p's row yields, if any: none
      when the row search fails, a cell does not convert or the price is
      falsy. */
  function CellRecord(text: string, p: Prefecture, fs: seq<FuelType>, cells: seq<CellPattern>, m: Matchers, i: nat)
    : (r: Option<Record>)
    requires WellFormed(m) && |cells| == |fs| && i < |fs|
    ensures r.Some? ==> r.value.PrefectureRecord? && r.value.prefecture == p && r.value.fuelType == fs[i]
  {
    match m.prefecture(text, p, cells)
    case None => None
    case Some(groups) =>
      match ParseCells(groups)
      case Err(_) => None
      case Ok(prices) => if Truthful(prices[i]) then Some(PrefectureRecord(p, fs[i], prices[i].value)) else None
  }

  /** Prefecture p's row yields rec from one of its columns. */
  ghost predicate Yields(text: string, p: Prefecture, fs: seq<FuelType>, cells: seq<CellPattern>, m: Matchers, rec: Record)
    requires WellFormed(m) && |cells| == |fs|
  {
    exists i :: 0 <= i < |fs| && CellRecord(text, p, fs, cells, m, i) == Some(rec)
  }

  /** The records of a successful run are exactly those some column of some
      visited prefecture yields. */
  lemma {:induction false} PrefectureRecordsComplete(text: string, ps: seq<Prefecture>, fs: seq<FuelType>,
                                                     cells: seq<CellPattern>, m: Matchers)
    requires WellFormed(m) && |cells| == |fs|
    requires PrefectureRecords(text, ps, fs, cells, m).Ok?
    ensures forall rec :: rec in PrefectureRecords(text, ps, fs, cells, m).value <==>
      exists j :: 0 <= j < |ps| && Yields(text, ps[j], fs, cells, m, rec)
  {
    if ps != [] {
      PrefectureRecordsStep(text, ps, fs, cells, m);
      PrefectureRecordsComplete(text, ps[1..], fs, cells, m);
      PrefectureRowCells(text, ps[0], fs, cells, m);
      YieldsAppend(text, ps, fs, cells, m, PrefectureRow(text, ps[0], fs, cells, m).value,
                   PrefectureRecords(text, ps[1..], fs, cells, m).value);
    }
  }

  /** The records of the first prefecture's row followed by those of the
      rest are those of the whole. */
  lemma YieldsAppend(text: string, ps: seq<Prefecture>, fs: seq<FuelType>, cells: seq<CellPattern>, m: Matchers,
                     first: seq<Record>, rest: seq<Record>)
    requires WellFormed(m) && |cells| == |fs| && ps != []
    requires forall rec :: rec in first <==> Yields(text, ps[0], fs, cells, m, rec)
    requires forall rec :: rec in rest <==> exists j :: 0 <= j < |ps[1..]| && Yields(text, ps[1..][j], fs, cells, m, rec)
    ensures forall rec :: rec in first + rest <==> exists j :: 0 <= j < |ps| && Yields(text, ps[j], fs, cells, m, rec)
  {
    forall rec | rec in first + rest
      ensures exists j :: 0 <= j < |ps| && Yields(text, ps[j], fs, cells, m, rec)
    {
      if rec in first {
        assert Yields(text, ps[0], fs, cells, m, rec);
      } else {
        assert rec in rest;
        var j :| 0 <= j < |ps[1..]| && Yields(text, ps[1..][j], fs, cells, m, rec);
        assert ps[1..][j] == ps[j + 1];
      }
    }
    forall rec, j | 0 <= j < |ps| && Yields(text, ps[j], fs, cells, m, rec)
      ensures rec in first + rest
    {
      if j == 0 {
        assert rec in first;
      } else {
        assert ps[1..][j - 1] == ps[j];
        assert rec in rest;
      }
    }
  }

  /** Every record is a prefecture record and, of any two, the prefecture of
      the earlier comes no later in ps. */
  ghost predicate FollowsOrder(rs: seq<Record>, ps: seq<Prefecture>) {
    (forall k :: 0 <= k < |rs| ==> rs[k].PrefectureRecord? && rs[k].prefecture in ps)
    && forall k1, k2 :: 0 <= k1 < k2 < |rs| ==>
      exists j1, j2 :: 0 <= j1 <= j2 < |ps| && ps[j1] == rs[k1].prefecture && ps[j2] == rs[k2].prefecture
  }

  /** A successful run lists the prefectures' records in the order of ps. */
  lemma {:induction false} PrefectureRecordsOrdered(text: string, ps: seq<Prefecture>, fs: seq<FuelType>,
                                                    cells: seq<CellPattern>, m: Matchers)
    requires WellFormed(m) && |cells| == |fs|
    requires PrefectureRecords(text, ps, fs, cells, m).Ok?
    ensures FollowsOrder(PrefectureRecords(text, ps, fs, cells, m).value, ps)
  {
    if ps != [] {
      PrefectureRecordsStep(text, ps, fs, cells, m);
      PrefectureRecordsOrdered(text, ps[1..], fs, cells, m);
      FollowsOrderAppend(PrefectureRow(text, ps[0], fs, cells, m).value, PrefectureRecords(text, ps[1..], fs, cells, m).value, ps);
    }
  }

  /** Records of the first prefecture before records in order over the rest
      are in order over the whole. */
  lemma FollowsOrderAppend(first: seq<Record>, rest: seq<Record>, ps: seq<Prefecture>)
    requires ps != []
    requires forall k :: 0 <= k < |first| ==> first[k].PrefectureRecord? && first[k].prefecture == ps[0]
    requires FollowsOrder(rest, ps[1..])
    ensures FollowsOrder(first + rest, ps)
  {
    var r := first + rest;
    forall k | 0 <= k < |r|
      ensures r[k].PrefectureRecord? && r[k].prefecture in ps
    {
      if k >= |first| {
        assert r[k] == rest[k - |first|];
      }
    }
    forall k1, k2 | 0 <= k1 < k2 < |r|
      ensures exists j1, j2 :: 0 <= j1 <= j2 < |ps| && ps[j1] == r[k1].prefecture && ps[j2] == r[k2].prefecture
    {
      if k2 < |first| {
        assert ps[0] == r[k1].prefecture && ps[0] == r[k2].prefecture;
      } else if k1 < |first| {
        assert r[k2] == rest[k2 - |first|];
        var j2 :| 0 <= j2 < |ps[1..]| && ps[1..][j2] == r[k2].prefecture;
        assert ps[0] == r[k1].prefecture && ps[j2 + 1] == r[k2].prefecture;
      } else {
        assert r[k1] == rest[k1 - |first|] && r[k2] == rest[k2 - |first|];
        var j1, j2 :| 0 <= j1 <= j2 < |ps[1..]| && ps[1..][j1] == r[k1].prefecture && ps[1..][j2] == r[k2].prefecture;
        assert ps[j1 + 1] == r[k1].prefecture && ps[j2 + 1] == r[k2].prefecture;
      }
    }
  }

  /** `extract_prefecture_data`: the column layout chosen from the text and the
      date, then the rows of every prefecture in declaration order. */
  function PrefectureData(text: string, d: Date, m: Matchers): (r: Result<seq<Record>>)
    requires WellFormed(m)
    ensures r.Ok? ==> forall k :: 0 <= k < |r.value| ==>
      r.value[k].PrefectureRecord? && DecimalTruthy(r.value[k].prefecturePrice)
      && r.value[k].fuelType in ColumnFuelTypes(Contains(text, "Super"), d)
  {
    var hasSuper := Contains(text, "Super");
    PrefectureRecords(text, AllPrefectures(), ColumnFuelTypes(hasSuper, d), ColumnPatterns(hasSuper, d), m)
  }

  /** A successful `extract_prefecture_data` holds exactly the records the
      columns of the prefectures' rows yield, listed in declaration order. */
  lemma PrefectureDataComplete(text: string, d: Date, m: Matchers)
    requires WellFormed(m) && PrefectureData(text, d, m).Ok?
    ensures var hasSuper := Contains(text, "Super");
      forall rec :: rec in PrefectureData(text, d, m).value <==>
        exists j :: 0 <= j < |AllPrefectures()| &&
          Yields(text, AllPrefectures()[j], ColumnFuelTypes(hasSuper, d), ColumnPatterns(hasSuper, d), m, rec)
    ensures FollowsOrder(PrefectureData(text, d, m).value, AllPrefectures())
  {
    var hasSuper := Contains(text, "Super");
    PrefectureRecordsComplete(text, AllPrefectures(), ColumnFuelTypes(hasSuper, d), ColumnPatterns(hasSuper, d), m);
    PrefectureRecordsOrdered(text, AllPrefectures(), ColumnFuelTypes(hasSuper, d), ColumnPatterns(hasSuper, d), m);
  }

  // ---------------------------------------------------------------------
  // extract_data of the three parsers, and Parser.parse
  // ---------------------------------------------------------------------

  /** The data a parser extracts, keyed by data type. */
  type Extracted = map<DataType, seq<Record>>

  /** `WeeklyParser.extract_data`: country data before the country end marker,
      prefecture data between the two markers. A prefecture marker without a
      country marker reads `.end(0)` of `None` and raises `AttributeError`. */
  function WeeklyExtract(text: string, d: Date, m: Matchers): (r: Result<Extracted>)
    requires WellFormed(m)
    ensures r.Ok? ==> r.value.Keys == {WeeklyCountry, WeeklyPrefecture}
    ensures m.countryEnd(text).None? ==> r.Ok? ==> r.value[WeeklyCountry] == []
    ensures m.prefectureEnd(text).None? ==> r.Ok? ==> r.value[WeeklyPrefecture] == []
    ensures m.countryEnd(text).None? && m.prefectureEnd(text).Some? ==> r == Err(AttributeError)
  {
    var countryEnd := m.countryEnd(text);
    var prefectureEnd := m.prefectureEnd(text);
    var country :- if countryEnd.Some? then CountryData(Slice(text, 0, countryEnd.value.start), m) else Ok([]);
    var prefecture :- if prefectureEnd.None? then Ok([])
      else if countryEnd.None? then Err(AttributeError)
      else PrefectureData(Slice(text, countryEnd.value.end, prefectureEnd.value.start), d, m);
    Ok(map[WeeklyCountry := country, WeeklyPrefecture := prefecture])
  }

  /** `extract_data` of the parser of the given kind. */
  function ExtractData(kind: ParserKind, text: string, d: Date, m: Matchers): (r: Result<Extracted>)
    requires WellFormed(m)
  {
    match kind
    case WeeklyParser => WeeklyExtract(text, d, m)
    case DailyCountryParser =>
      var country :- CountryData(text, m);
      Ok(map[DailyCountry := country])
    case DailyPrefectureParser =>
      var prefecture :- PrefectureData(text, d, m);
      Ok(map[DailyPrefecture := prefecture])
  }

  /** The parser of a file type extracts exactly the data types of that file type. */
  lemma ParserDataTypes(t: DataFileType, text: string, d: Date, m: Matchers)
    requires WellFormed(m) && ExtractData(ParserFor(t), text, d, m).Ok?
    ensures ExtractData(ParserFor(t), text, d, m).value.Keys == set x | x in DataTypes(t)
  {
    var keys := ExtractData(ParserFor(t), text, d, m).value.Keys;
    assert DataTypes(t)[0] in keys;
  }

  /** `Parser.parse`: the date comes from the stored file name, and the text
      (`None` when it could not be read) is handed to the parser's `extract_data`. */
  function Parse(kind: ParserKind, fileName: string, text: Option<string>, m: Matchers): (r: Result<Option<Extracted>>)
    requires WellFormed(m)
    ensures MatchIsoFileName(fileName).None? ==> r == Ok(None)
    ensures r.Ok? && r.value.Some? ==> text.Some? && text.value != []
    ensures MatchIsoFileName(fileName).Some? && GroupsDate(MatchIsoFileName(fileName).value).Err? ==> r == Err(ValueError)
    ensures r.Err? && MatchIsoFileName(fileName).Some? && GroupsDate(MatchIsoFileName(fileName).value).Ok? ==>
      text.Some? && ExtractData(kind, text.value, GroupsDate(MatchIsoFileName(fileName).value).value, m).Err?
  {
    match MatchIsoFileName(fileName)
    case None => Ok(None)
    case Some(g) =>
      var d :- GroupsDate(g);
      if text.Some? && text.value != [] then
        var data :- ExtractData(kind, text.value, d, m);
        Ok(Some(data))
      else Ok(None)
  }

  /** A file stored under a date's name is parsed as that date's bulletin. */
  lemma ParseStoredFile(kind: ParserKind, d: Date, text: string, m: Matchers)
    requires WellFormed(m) && text != []
    ensures var r := Parse(kind, IsoFormat(d) + ".pdf", Some(text), m);
      var x := ExtractData(kind, text, d, m);
      (r.Ok? <==> x.Ok?) && (r.Ok? ==> r.value == Some(x.value))
  {
    IsoFileNameRoundTrip(d);
  }
}
