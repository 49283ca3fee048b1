/** The MongoDB storage: one collection per data type whose documents are the
    row dictionaries with their Decimal values written as text and a `date`
    field at midnight of the bulletin's date. Modelled here: the index fields,
    the query document of the prefecture range query and what it matches, the
    replace-by-date update, the existence check and the date range.
 */
module Mongo {
  import opened Options
  import opened Calendar
  import opened Numbers
  import opened Enums
  import opened Records
  import Storage

  // ---------------------------------------------------------------------
  // Index fields
  // ---------------------------------------------------------------------

  /** `{'date': 1} | ({'prefecture': 1} if the value ends with '_prefecture' else {}) | {'fuel_type': 1}`, in key order. */
  function IndexFields(t: DataType): (fields: seq<string>)
    ensures |fields| >= 2 && fields[0] == "date" && fields[|fields| - 1] == "fuel_type"
    ensures "prefecture" in fields <==> t == WeeklyPrefecture || t == DailyPrefecture
    ensures |fields| == if "prefecture" in fields then 3 else 2
  {
    var value := DataTypeValue(t);
    var prefectural := |value| >= |"_prefecture"| && value[|value| - |"_prefecture"|..] == "_prefecture";
    PrefectureSuffix(t);
    ["date"] + (if prefectural then ["prefecture"] else []) + ["fuel_type"]
  }

  /** Exactly the prefecture data types have values ending in "_prefecture". */
  lemma PrefectureSuffix(t: DataType)
    ensures var value := DataTypeValue(t);
      (|value| >= |"_prefecture"| && value[|value| - |"_prefecture"|..] == "_prefecture") <==>
      (t == WeeklyPrefecture || t == DailyPrefecture)
  {
    var value := DataTypeValue(t);
    if t == WeeklyCountry || t == DailyCountry {
      assert value[|value| - 11] != '_';
    }
  }

  /** The indexed fields are the fields the rows of the data type carry, with the date in front. */
  lemma IndexFieldsMatchRows(t: DataType, r: Record)
    requires Storage.Fits(t, r)
    ensures forall f :: f in IndexFields(t) ==> f == "date" || f in RecordRow(r)
  {
  }

  // ---------------------------------------------------------------------
  // Datetimes and the query document
  // ---------------------------------------------------------------------

  /** A `datetime.datetime`: a date and the microseconds since its midnight. */
  datatype DateTime = DateTime(date: Date, micros: int)

  /** `datetime.time.max` is 23:59:59.999999. */
  const LastMicro: int := 86_399_999_999

  predicate DateTimeLessEq(a: DateTime, b: DateTime) {
    Ordinal(a.date) < Ordinal(b.date) || (a.date == b.date && a.micros <= b.micros)
  }

  /** `get_datetime_from_date`: `datetime.combine(date, time.min)`. */
  function AtMidnight(d: Date): (t: DateTime)
    ensures t.date == d && t.micros == 0
    ensures forall u: DateTime :: u.date == d && 0 <= u.micros ==> DateTimeLessEq(t, u)
  {
    DateTime(d, 0)
  }

  /** `datetime.combine(date, time.max)`. */
  function AtDayEnd(d: Date): (t: DateTime)
    ensures t.date == d
    ensures forall u: DateTime :: u.date == d && u.micros <= LastMicro ==> DateTimeLessEq(u, t)
  {
    DateTime(d, LastMicro)
  }

  /** A value of a query document: a text to compare with, or a date condition holding `$gte` and `$lte` when given. */
  datatype Condition = Equals(text: string) | Between(bounds: map<string, DateTime>)

  type Query = map<string, Condition>

  /** The query document of `daily_prefecture_data(prefecture, start_date, end_date)`. */
  function RangeFilter(prefecture: Option<Prefecture>, start: Option<Date>, end: Option<Date>): (q: Query)
    ensures "prefecture" in q <==> prefecture.Some?
    ensures prefecture.Some? ==> q["prefecture"] == Equals(PrefectureName(prefecture.value))
    ensures "date" in q <==> start.Some? || end.Some?
    ensures "date" in q ==>
      q["date"].Between? && ("$gte" in q["date"].bounds <==> start.Some?) && ("$lte" in q["date"].bounds <==> end.Some?)
    ensures q.Keys <= {"prefecture", "date"}
  {
    var q: Query := if prefecture.Some? then map["prefecture" := Equals(PrefectureName(prefecture.value))] else map[];
    var lower: map<string, DateTime> := if start.Some? then map["$gte" := AtMidnight(start.value)] else map[];
    var bounds := if end.Some? then lower["$lte" := AtDayEnd(end.value)] else lower;
    if start.Some? || end.Some? then q["date" := Between(bounds)] else q
  }

  /** A stored document: the row dictionary. */
  type Document = Row

  /** Whether a document satisfies a query document, as MongoDB evaluates one. */
  predicate Matches(q: Query, doc: Document) {
    ("prefecture" in q && q["prefecture"].Equals? ==>
      "prefecture" in doc && doc["prefecture"] == Str(q["prefecture"].text))
    && ("date" in q && q["date"].Between? ==>
      "date" in doc && doc["date"].Midnight?
      && ("$gte" in q["date"].bounds ==> DateTimeLessEq(q["date"].bounds["$gte"], AtMidnight(doc["date"].date)))
      && ("$lte" in q["date"].bounds ==> DateTimeLessEq(AtMidnight(doc["date"].date), q["date"].bounds["$lte"])))
  }

  /** A document stamped with a date is found exactly when it belongs to the prefecture and its date lies within the given bounds, both included. */
  lemma RangeFilterMatches(prefecture: Option<Prefecture>, start: Option<Date>, end: Option<Date>, doc: Document, d: Date)
    requires "date" in doc && doc["date"] == Midnight(d)
    ensures Matches(RangeFilter(prefecture, start, end), doc) <==>
      (prefecture.Some? ==> "prefecture" in doc && doc["prefecture"] == Str(PrefectureName(prefecture.value)))
      && (start.Some? ==> LessEq(start.value, d))
      && (end.Some? ==> LessEq(d, end.value))
  {
    if start.Some? && LessEq(start.value, d) && start.value != d {
      OrdinalInjective(start.value, d);
    }
    if end.Some? && LessEq(d, end.value) && d != end.value {
      OrdinalInjective(d, end.value);
    }
  }

  // ---------------------------------------------------------------------
  // update_data, data_exists, date_range
  // ---------------------------------------------------------------------

  /** `str(value) if isinstance(value, decimal.Decimal) else value`. */
  function Stringify(v: Value): (w: Value)
    ensures v.Dec? ==> w == Str(DecimalToString(v.decimal))
    ensures !v.Dec? ==> w == v
  {
    if v.Dec? then Str(DecimalToString(v.decimal)) else v
  }

  /** The document of a row: every value stringified, then `date` set to midnight of the date, replacing any `date` of the row. */
  function ToDocument(row: Row, d: Date): (doc: Document)
    ensures doc.Keys == row.Keys + {"date"}
    ensures doc["date"] == Midnight(d)
    ensures forall k :: k in row && k != "date" ==> doc[k] == Stringify(row[k])
  {
    (map k | k in row :: Stringify(row[k]))["date" := Midnight(d)]
  }

  /** The price of a stored document as a value of a row: its text read as a Decimal again. */
  function ReadPrice(v: Value): Option<Value> {
    if v.Str? then
      match ParseDecimal(v.text)
      case Ok(p) => Some(Dec(p))
      case Err(_) => None
    else Some(v)
  }

  /** Every price a row may hold, a Decimal or None, is read back from its stringified form. */
  lemma ReadPriceStringify(v: Value)
    requires v.Dec? || v.Null?
    ensures ReadPrice(Stringify(v)) == Some(v)
  {
    if v.Dec? {
      DecimalRoundTrip(v.decimal);
    }
  }

  /** Reading a document back as a dated record. */
  function DocumentRecord(doc: Document): Option<(Date, Record)> {
    if "date" !in doc || !doc["date"].Midnight? || "price" !in doc then None
    else
      match ReadPrice(doc["price"])
      case None => None
      case Some(price) =>
        match RowRecord(doc["price" := price])
        case None => None
        case Some(r) => Some((doc["date"].date, r))
  }

  /** A record stored as a document reads back as the same record on the same date. */
  lemma DocumentRoundTrip(r: Record, d: Date)
    ensures DocumentRecord(ToDocument(RecordRow(r), d)) == Some((d, r))
  {
    var row := RecordRow(r);
    var doc := ToDocument(row, d);
    ReadPriceStringify(row["price"]);
    DocumentRestored(r, d);
    RecordRowDated(r, d);
  }

  /** Only the price of a record's row is a Decimal, so restoring the price undoes the stringification. */
  lemma DocumentRestored(r: Record, d: Date)
    ensures var doc := ToDocument(RecordRow(r), d);
      doc["price" := RecordRow(r)["price"]] == RecordRow(r)["date" := Midnight(d)]
  {
    RecordRowPriceOnly(r);
    PriceRestored(RecordRow(r), d);
  }

  lemma PriceRestored(row: Row, d: Date)
    requires "price" in row
    requires forall k :: k in row && k != "price" ==> !row[k].Dec?
    ensures ToDocument(row, d)["price" := row["price"]] == row["date" := Midnight(d)]
  {
    var restored := ToDocument(row, d)["price" := row["price"]];
    var dated := row["date" := Midnight(d)];
    assert restored.Keys == dated.Keys;
    forall k | k in restored
      ensures restored[k] == dated[k]
    {
    }
  }

  /** A record's row holds a Decimal in its price field and nowhere else. */
  lemma RecordRowPriceOnly(r: Record)
    ensures forall k :: k in RecordRow(r) && k != "price" ==> !RecordRow(r)[k].Dec?
  {
  }

  /** The extra `date` field does not disturb reading a record's row. */
  lemma RecordRowDated(r: Record, d: Date)
    ensures RowRecord(RecordRow(r)["date" := Midnight(d)]) == Some(r)
  {
    RecordRowRoundTrip(r);
    RowRecordReadsFields(RecordRow(r), RecordRow(r)["date" := Midnight(d)]);
  }

  type Collection = seq<Document>

  /** The filter `{'date': get_datetime_from_date(date)}`. */
  predicate OnDate(doc: Document, d: Date) {
    "date" in doc && doc["date"] == Midnight(d)
  }

  /** The documents of a date, in collection order. */
  function DocumentsOn(c: Collection, d: Date): Collection {
    FilterMap(c, (doc: Document) => if OnDate(doc, d) then Some(doc) else None)
  }

  /** `delete_many({'date': ...})`: the documents not of the date, in collection order. */
  function DeleteDate(c: Collection, d: Date): (r: Collection)
    ensures forall i :: 0 <= i < |r| ==> !OnDate(r[i], d)
  {
    if c == [] then []
    else (if OnDate(c[0], d) then [] else [c[0]]) + DeleteDate(c[1..], d)
  }

  function ToDocuments(rows: seq<Row>, d: Date): (docs: Collection)
    ensures |docs| == |rows|
    ensures forall i :: 0 <= i < |rows| ==> docs[i] == ToDocument(rows[i], d)
  {
    seq(|rows|, i requires 0 <= i < |rows| => ToDocument(rows[i], d))
  }

  /** `update_data(date, data_type, data)`: delete the documents of the date, then `insert_many` the rows' documents unless there are none. */
  function UpdateData(c: Collection, d: Date, rows: seq<Row>): Collection {
    DeleteDate(c, d) + (if rows != [] then ToDocuments(rows, d) else [])
  }

  lemma {:induction false} DocumentsOnConcat(a: Collection, b: Collection, d: Date)
    ensures DocumentsOn(a + b, d) == DocumentsOn(a, d) + DocumentsOn(b, d)
  {
    FilterMapConcat(a, b, (doc: Document) => if OnDate(doc, d) then Some(doc) else None);
  }

  /** Deleting the documents of d keeps the documents of every other date as they were, and none of d. */
  lemma {:induction false} DeleteDateDocuments(c: Collection, d: Date, e: Date)
    ensures DocumentsOn(DeleteDate(c, d), e) == if e == d then [] else DocumentsOn(c, e)
  {
    if c != [] {
      DeleteDateDocuments(c[1..], d, e);
      var head := if OnDate(c[0], d) then [] else [c[0]];
      DocumentsOnConcat(head, DeleteDate(c[1..], d), e);
      DocumentsOnConcat([c[0]], c[1..], e);
      assert [c[0]] + c[1..] == c;
    }
  }

  lemma {:induction false} ToDocumentsOn(rows: seq<Row>, d: Date, e: Date)
    ensures DocumentsOn(ToDocuments(rows, d), e) == if e == d then ToDocuments(rows, d) else []
  {
    if rows != [] {
      ToDocumentsOn(rows[1..], d, e);
      assert ToDocuments(rows, d) == [ToDocument(rows[0], d)] + ToDocuments(rows[1..], d);
      DocumentsOnConcat([ToDocument(rows[0], d)], ToDocuments(rows[1..], d), e);
      if e != d {
        assert !OnDate(ToDocument(rows[0], d), e) by {
          assert Midnight(d) != Midnight(e);
        }
      }
    }
  }

  /** After an update the documents of the date are exactly the rows' documents, in order, and those of every other date are kept as they were. */
  lemma UpdateDataReplaces(c: Collection, d: Date, rows: seq<Row>, e: Date)
    ensures DocumentsOn(UpdateData(c, d, rows), e) == if e == d then ToDocuments(rows, d) else DocumentsOn(c, e)
  {
    var added := if rows != [] then ToDocuments(rows, d) else [];
    DocumentsOnConcat(DeleteDate(c, d), added, e);
    DeleteDateDocuments(c, d, e);
    ToDocumentsOn(rows, d, e);
  }

  /** `count_documents({'date': ...}) > 0`. */
  predicate DataExists(c: Collection, d: Date) {
    exists i :: 0 <= i < |c| && OnDate(c[i], d)
  }

  lemma DataExistsOn(c: Collection, d: Date)
    ensures DataExists(c, d) <==> DocumentsOn(c, d) != []
  {
    var f := (doc: Document) => if OnDate(doc, d) then Some(doc) else None;
    if DataExists(c, d) {
      var i :| 0 <= i < |c| && OnDate(c[i], d);
      FilterMapMembers(c, f, c[i]);
    } else if DocumentsOn(c, d) != [] {
      FilterMapMembers(c, f, DocumentsOn(c, d)[0]);
    }
  }

  /** After an update, data exists for the date exactly when rows were given. */
  lemma DataExistsAfterUpdate(c: Collection, d: Date, rows: seq<Row>)
    ensures DataExists(UpdateData(c, d, rows), d) <==> rows != []
  {
    UpdateDataReplaces(c, d, rows, d);
    DataExistsOn(UpdateData(c, d, rows), d);
  }

  /** The `date` of a document, when it is a midnight datetime. */
  function DocumentDate(doc: Document): Option<Date> {
    if "date" in doc && doc["date"].Midnight? then Some(doc["date"].date) else None
  }

  /** `date_range`: the `$min` and `$max` of the documents' dates; (None,
      None) for an empty collection. A non-empty collection whose documents
      carry no date makes `.date()` be read from None. */
  function DateRange(c: Collection): (r: Result<(Option<Date>, Option<Date>)>)
    ensures c == [] ==> r == Ok((None, None))
    ensures r.Err? <==> c != [] && forall i :: 0 <= i < |c| ==> DocumentDate(c[i]).None?
    ensures r.Err? ==> r.error == AttributeError
    ensures r.Ok? && c != [] ==> r.value.0.Some? && r.value.1.Some?
    ensures r.Ok? && c != [] ==> forall i :: 0 <= i < |c| && DocumentDate(c[i]).Some? ==>
      LessEq(r.value.0.value, DocumentDate(c[i]).value) && LessEq(DocumentDate(c[i]).value, r.value.1.value)
    ensures r.Ok? && c != [] ==> exists i :: 0 <= i < |c| && DocumentDate(c[i]) == r.value.0
    ensures r.Ok? && c != [] ==> exists i :: 0 <= i < |c| && DocumentDate(c[i]) == r.value.1
  {
    var dates := FilterMap(c, DocumentDate);
    if c == [] then Ok((None, None))
    else
      DocumentDates(c);
      if dates == [] then Err(AttributeError)
      else
        FilterMapMembers(c, DocumentDate, Earliest(dates).value);
        FilterMapMembers(c, DocumentDate, Latest(dates).value);
        Ok((Earliest(dates), Latest(dates)))
  }

  lemma DocumentDates(c: Collection)
    ensures FilterMap(c, DocumentDate) == [] <==> forall i :: 0 <= i < |c| ==> DocumentDate(c[i]).None?
    ensures forall i :: 0 <= i < |c| && DocumentDate(c[i]).Some? ==> DocumentDate(c[i]).value in FilterMap(c, DocumentDate)
  {
    forall i | 0 <= i < |c| && DocumentDate(c[i]).Some?
      ensures DocumentDate(c[i]).value in FilterMap(c, DocumentDate)
    {
      FilterMapMembers(c, DocumentDate, DocumentDate(c[i]).value);
    }
    if FilterMap(c, DocumentDate) != [] {
      FilterMapMembers(c, DocumentDate, FilterMap(c, DocumentDate)[0]);
    }
  }
}
