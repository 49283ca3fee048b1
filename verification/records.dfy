/** The records the parsers produce and the row dictionaries through which they
    travel to storage and back out of the services.

    A country record carries a fuel type, a number of stations and a price; a
    prefecture record carries a prefecture, a fuel type and a price. In the
    source both are plain dictionaries such as
    `{'fuel_type': 'DIESEL', 'number_of_stations': 1234, 'price': Decimal('1.654')}`,
    modelled here as a `Row`.
 */
module Records {
  import opened Options
  import opened Numbers
  import opened Calendar
  import opened Enums

  /** A Python value held in a row dictionary. */
  datatype Value =
    | Str(text: string)
    | Int(number: int)
    | Dec(decimal: Decimal)
    | Day(date: Date)           // a datetime.date
    | Midnight(date: Date)      // a datetime.datetime at 00:00 of the date
    | Null                      // None

  /** A row dictionary. */
  type Row = map<string, Value>

  /** Python truthiness of a value. */
  predicate Truthy(v: Value) {
    match v
    case Str(t) => t != []
    case Int(n) => n != 0
    case Dec(d) => DecimalTruthy(d)
    case Day(_) => true
    case Midnight(_) => true
    case Null => false
  }

  function IntOrNull(o: Option<int>): (v: Value)
    ensures v.Null? <==> o.None?
    ensures o.Some? ==> v == Int(o.value)
  {
    match o
    case Some(n) => Int(n)
    case None => Null
  }

  function DecOrNull(o: Option<Decimal>): (v: Value)
    ensures v.Null? <==> o.None?
    ensures o.Some? ==> v == Dec(o.value)
  {
    match o
    case Some(d) => Dec(d)
    case None => Null
  }

  /** A parsed bulletin record. */
  datatype Record =
    | CountryRecord(fuelType: FuelType, stations: Option<int>, price: Option<Decimal>)
    | PrefectureRecord(prefecture: Prefecture, fuelType: FuelType, prefecturePrice: Decimal)

  /** The dictionary the parsers emit for a record; enum members are stored by value. */
  function RecordRow(r: Record): (row: Row)
    ensures "fuel_type" in row && "price" in row
    ensures "prefecture" in row <==> r.PrefectureRecord?
    ensures "number_of_stations" in row <==> r.CountryRecord?
    ensures |row.Keys| == 3
  {
    match r
    case CountryRecord(f, n, p) =>
      map["fuel_type" := Str(FuelTypeName(f)), "number_of_stations" := IntOrNull(n), "price" := DecOrNull(p)]
    case PrefectureRecord(pr, f, p) =>
      map["prefecture" := Str(PrefectureName(pr)), "fuel_type" := Str(FuelTypeName(f)), "price" := Dec(p)]
  }

  /** Reading a stored row back, as the services do with `enums.FuelType(row['fuel_type'])`. */
  function RowRecord(row: Row): Option<Record>
  {
    if "fuel_type" !in row || "price" !in row || !row["fuel_type"].Str? then None
    else
      match FuelTypeFromName(row["fuel_type"].text)
      case Err(_) => None
      case Ok(f) => RowRecordOf(row, f)
  }

  /** The rest of a row, once its fuel type has been read. */
  function RowRecordOf(row: Row, f: FuelType): Option<Record>
    requires "price" in row
  {
    if "prefecture" in row then
      if !row["prefecture"].Str? || !row["price"].Dec? then None
      else
        match PrefectureFromName(row["prefecture"].text)
        case Err(_) => None
        case Ok(p) => Some(PrefectureRecord(p, f, row["price"].decimal))
    else if "number_of_stations" in row then
      var n := row["number_of_stations"];
      var p := row["price"];
      if !(n.Int? || n.Null?) || !(p.Dec? || p.Null?) then None
      else Some(CountryRecord(f, if n.Int? then Some(n.number) else None, if p.Dec? then Some(p.decimal) else None))
    else None
  }

  /** A record survives being written as a row and read back. */
  lemma RecordRowRoundTrip(r: Record)
    ensures RowRecord(RecordRow(r)) == Some(r)
  {
    FuelTypeNameRoundTrip(r.fuelType);
    assert RecordRow(r)["fuel_type"] == Str(FuelTypeName(r.fuelType));
    if r.PrefectureRecord? {
      PrefectureNameRoundTrip(r.prefecture);
      PrefectureRowRoundTrip(r);
    } else {
      CountryRowRoundTrip(r);
    }
  }

  lemma CountryRowRoundTrip(r: Record)
    requires r.CountryRecord?
    ensures RowRecordOf(RecordRow(r), r.fuelType) == Some(r)
  {
    CountryRowFields(r);
    CountryRowRead(RecordRow(r), r);
  }

  /** A row with a country record's fields reads back as that record. */
  lemma CountryRowRead(row: Row, r: Record)
    requires r.CountryRecord? && "price" in row
    requires "prefecture" !in row && "number_of_stations" in row
    requires row["number_of_stations"] == IntOrNull(r.stations) && row["price"] == DecOrNull(r.price)
    ensures RowRecordOf(row, r.fuelType) == Some(r)
  {
  }

  /** The fields of a country record's row. */
  lemma CountryRowFields(r: Record)
    requires r.CountryRecord?
    ensures var row := RecordRow(r);
      "prefecture" !in row && "number_of_stations" in row &&
      row["number_of_stations"] == IntOrNull(r.stations) && row["price"] == DecOrNull(r.price)
  {
  }

  lemma PrefectureRowRoundTrip(r: Record)
    requires r.PrefectureRecord?
    requires PrefectureFromName(PrefectureName(r.prefecture)) == Ok(r.prefecture)
    ensures RowRecordOf(RecordRow(r), r.fuelType) == Some(r)
  {
    var row := RecordRow(r);
    assert row["prefecture"] == Str(PrefectureName(r.prefecture));
  }

  /** The fields of a record's row. */
  lemma RecordRowKeys(r: Record)
    ensures RecordRow(r).Keys == if r.CountryRecord? then {"fuel_type", "number_of_stations", "price"} else {"prefecture", "fuel_type", "price"}
  {
  }

  /** The fields a record is read from. */
  predicate SameFields(row: Row, other: Row) {
    forall k :: k in ["fuel_type", "price", "prefecture", "number_of_stations"] ==>
      (k in row <==> k in other) && (k in row ==> row[k] == other[k])
  }

  /** Reading a record looks at its four fields only: any other field of the row is ignored. */
  lemma RowRecordReadsFields(row: Row, other: Row)
    requires SameFields(row, other)
    ensures RowRecord(row) == RowRecord(other)
  {
    assert "fuel_type" in ["fuel_type", "price", "prefecture", "number_of_stations"];
    assert "price" in ["fuel_type", "price", "prefecture", "number_of_stations"];
    assert "prefecture" in ["fuel_type", "price", "prefecture", "number_of_stations"];
    assert "number_of_stations" in ["fuel_type", "price", "prefecture", "number_of_stations"];
  }
}
