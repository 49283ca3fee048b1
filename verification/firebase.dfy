/** The Firestore storage, in its two versions: one collection per data type,
    one document per row holding the ISO date and the row's values with
    Decimals written as text. The later version writes each row under a name
    made of the date, the fuel type and the prefecture; the earlier one
    computes such a name from enum members it never receives.
 */
module Firebase {
  import opened Options
  import opened Calendar
  import opened Numbers
  import opened Text
  import opened DateFormat
  import opened Enums
  import opened Records
  import opened Assignments
  import Mongo

  /** `_get_collection_name`: the collection of each data type is named by the data type's value; the
      `ValueError` of its default branch cannot be reached from a member of the enum. */
  function CollectionName(t: DataType): (name: string)
    ensures name == DataTypeValue(t)
    ensures forall u: DataType :: u != t ==> DataTypeValue(u) != name
  {
    match t
    case WeeklyCountry => "weekly_country"
    case WeeklyPrefecture => "weekly_prefecture"
    case DailyCountry => "daily_country"
    case DailyPrefecture => "daily_prefecture"
  }

  // ---------------------------------------------------------------------
  // Document names
  // ---------------------------------------------------------------------

  /** The part of a document name after the date: the fuel type's value and, for a prefecture, `_` and its value. */
  function NameKey(f: FuelType, p: Option<Prefecture>): string {
    FuelTypeName(f) + (if p.Some? then "_" + PrefectureName(p.value) else "")
  }

  /** `_get_document_name(date, fuel_type, prefecture)`: the ISO date, `_`, the fuel type's value and, for a prefecture, `_` and its value. */
  function DocumentName(d: Date, f: FuelType, p: Option<Prefecture>): string {
    if p.Some? then IsoFormat(d) + "_" + FuelTypeName(f) + "_" + PrefectureName(p.value)
    else IsoFormat(d) + "_" + FuelTypeName(f)
  }

  /** A document name is the ISO date, `_` and the key. */
  lemma DocumentNameParts(d: Date, f: FuelType, p: Option<Prefecture>)
    ensures DocumentName(d, f, p) == IsoFormat(d) + "_" + NameKey(f, p)
    ensures |DocumentName(d, f, p)| > 11
    ensures DocumentName(d, f, p)[..10] == IsoFormat(d) && DocumentName(d, f, p)[11..] == NameKey(f, p)
  {
    var iso := IsoFormat(d);
    if p.Some? {
      Associate(iso + "_", FuelTypeName(f), "_" + PrefectureName(p.value));
    }
    SplitAfter(iso, NameKey(f, p));
  }

  /** `(a + b) + c` is `a + (b + c)`. */
  lemma Associate(a: string, b: string, c: string)
    ensures a + b + c == a + (b + c)
  {
  }

  /** A ten-character text, `_` and a rest split back into the two. */
  lemma SplitAfter(iso: string, key: string)
    requires |iso| == 10
    ensures var name := iso + "_" + key; |name| == 11 + |key| && name[..10] == iso && name[11..] == key
  {
    var name := iso + "_" + key;
    assert name[..10] == iso;
    assert name[11..] == key;
  }

  /** Reading the fuel type and the prefecture back from the part of a document name after the date: the first fuel type, in declaration order, whose value is the text or is followed by `_` and a prefecture's value. */
  function SplitKey(fs: seq<FuelType>, rest: string): Option<(FuelType, Option<Prefecture>)> {
    if fs == [] then None
    else
      var n := FuelTypeName(fs[0]);
      if rest == n then Some((fs[0], None))
      else if |rest| > |n| + 1 && rest[..|n| + 1] == n + "_" && PrefectureFromName(rest[|n| + 1..]).Ok? then
        Some((fs[0], Some(PrefectureFromName(rest[|n| + 1..]).value)))
      else SplitKey(fs[1..], rest)
  }

  /** No prefecture's value starts like the `HEATING` of `DIESEL_HEATING`. */
  lemma NoHeatingPrefecture(x: Prefecture)
    ensures |PrefectureName(x)| >= 4
    ensures PrefectureName(x)[0] == 'H' ==> PrefectureName(x)[2] == 'R'
  {
    PrefectureMember(x);
    var n := PrefectureName(x);
    var k := PrefectureKey(n);
    assert k.0 == |n| && k.0 >= 4;
    assert k == (|n|, n[0], n[2]);
  }

  /** The key of the first fuel type in the list reads back as itself. */
  lemma {:induction false} SplitKeyHit(fs: seq<FuelType>, f: FuelType, p: Option<Prefecture>)
    requires fs != [] && fs[0] == f
    ensures SplitKey(fs, NameKey(f, p)) == Some((f, p))
  {
    if p.Some? {
      var q := PrefectureName(p.value);
      PrefectureNameRoundTrip(p.value);
      NoHeatingPrefecture(p.value);
      SplitKeyHitText(fs, q, p.value);
    }
  }

  /** The first fuel type's value followed by `_` and a prefecture's value reads back as that fuel type and prefecture. */
  lemma {:induction false} SplitKeyHitText(fs: seq<FuelType>, q: string, x: Prefecture)
    requires fs != [] && |q| > 0 && PrefectureFromName(q) == Ok(x)
    ensures SplitKey(fs, FuelTypeName(fs[0]) + ("_" + q)) == Some((fs[0], Some(x)))
  {
    KeyParts(FuelTypeName(fs[0]), q);
  }

  /** A name, `_` and a non-empty suffix split back at the `_`. */
  lemma KeyParts(n: string, q: string)
    requires |q| > 0
    ensures var rest := n + ("_" + q);
      rest != n && |rest| > |n| + 1 && rest[..|n| + 1] == n + "_" && rest[|n| + 1..] == q
  {
    var rest := n + ("_" + q);
    assert |rest| == |n| + 1 + |q|;
    assert rest[..|n| + 1] == n + "_";
    assert rest[|n| + 1..] == q;
  }

  /** A text that differs from the first fuel type's value at some position within both is read by the rest of the list. */
  lemma {:induction false} SplitKeyMissAt(fs: seq<FuelType>, rest: string, i: nat)
    requires fs != [] && i < |rest| && i < |FuelTypeName(fs[0])| && rest[i] != FuelTypeName(fs[0])[i]
    ensures SplitKey(fs, rest) == SplitKey(fs[1..], rest)
  {
    var n := FuelTypeName(fs[0]);
    if |rest| > |n| + 1 {
      assert rest[..|n| + 1][i] != (n + "_")[i];
    }
  }

  /** The part of a document name after the date gives back the fuel type and the prefecture it was made of. */
  lemma {:induction false} SplitKeyRoundTrip(f: FuelType, p: Option<Prefecture>)
    ensures SplitKey(AllFuelTypes(), NameKey(f, p)) == Some((f, p))
  {
    if f == Unleaded95 || f == Unleaded100 || f == Super {
      SplitKeyRoundTripEarly(f, p);
    } else {
      SplitKeyRoundTripLate(f, p);
    }
  }

  /** The round trip for the first three fuel types. */
  lemma {:induction false} SplitKeyRoundTripEarly(f: FuelType, p: Option<Prefecture>)
    requires f == Unleaded95 || f == Unleaded100 || f == Super
    ensures SplitKey(AllFuelTypes(), NameKey(f, p)) == Some((f, p))
  {
    var fs := AllFuelTypes();
    assert fs == [Unleaded95, Unleaded100, Super, Diesel, DieselHeating, Gas];
    match f
    case Unleaded95 =>
      SplitKeyHit(fs, f, p);
    case Unleaded100 =>
      SplitKeySkip(fs, f, p, 9);
      SplitKeyHit(fs[1..], f, p);
    case Super =>
      SplitKeySkip(fs, f, p, 0);
      SplitKeySkip(fs[1..], f, p, 0);
      SplitKeyHit(fs[2..], f, p);
  }

  /** The round trip for the last three fuel types. */
  lemma {:induction false} SplitKeyRoundTripLate(f: FuelType, p: Option<Prefecture>)
    requires f == Diesel || f == DieselHeating || f == Gas
    ensures SplitKey(AllFuelTypes(), NameKey(f, p)) == Some((f, p))
  {
    var fs := AllFuelTypes();
    assert fs == [Unleaded95, Unleaded100, Super, Diesel, DieselHeating, Gas];
    SplitKeySkip(fs, f, p, 0);
    SplitKeySkip(fs[1..], f, p, 0);
    SplitKeySkip(fs[2..], f, p, 0);
    match f
    case Diesel =>
      SplitKeyHit(fs[3..], f, p);
    case DieselHeating =>
      HeatingIsNoPrefecture(fs[3..], p);
      SplitKeyHit(fs[4..], f, p);
    case Gas =>
      SplitKeySkip(fs[3..], f, p, 0);
      SplitKeySkip(fs[4..], f, p, 0);
      SplitKeyHit(fs[5..], f, p);
  }

  /** A key whose fuel type's value differs from the first listed one's at a position within both is read by the rest of the list. */
  lemma SplitKeySkip(fs: seq<FuelType>, f: FuelType, p: Option<Prefecture>, i: nat)
    requires fs != [] && i < |FuelTypeName(f)| && i < |FuelTypeName(fs[0])| && FuelTypeName(f)[i] != FuelTypeName(fs[0])[i]
    ensures SplitKey(fs, NameKey(f, p)) == SplitKey(fs[1..], NameKey(f, p))
  {
    var rest := NameKey(f, p);
    assert rest[i] == FuelTypeName(f)[i];
    SplitKeyMissAt(fs, rest, i);
  }

  /** DIESEL is tried before DIESEL_HEATING: what follows its `DIESEL_` in a DIESEL_HEATING key is `HEATING...`, which is no prefecture's value. */
  lemma {:induction false} HeatingIsNoPrefecture(fs: seq<FuelType>, p: Option<Prefecture>)
    requires fs != [] && fs[0] == Diesel
    ensures SplitKey(fs, NameKey(DieselHeating, p)) == SplitKey(fs[1..], NameKey(DieselHeating, p))
  {
    var rest := NameKey(DieselHeating, p);
    assert rest[..14] == "DIESEL_HEATING";
    var tail := rest[7..];
    assert tail[0] == 'H' && tail[2] == 'A';
    if PrefectureFromName(tail).Ok? {
      NoHeatingPrefecture(PrefectureFromName(tail).value);
    }
  }

  /** Different keys have different document names: a name identifies the date, the fuel type and the prefecture. */
  lemma DocumentNameInjective(d: Date, f: FuelType, p: Option<Prefecture>, e: Date, g: FuelType, q: Option<Prefecture>)
    ensures DocumentName(d, f, p) == DocumentName(e, g, q) <==> d == e && f == g && p == q
  {
    if DocumentName(d, f, p) == DocumentName(e, g, q) {
      DocumentNameParts(d, f, p);
      DocumentNameParts(e, g, q);
      IsoFormatInjective(d, e);
      SplitKeyRoundTrip(f, p);
      SplitKeyRoundTrip(g, q);
    }
  }

  /** `str(value)` of a row value that is a fuel type's or a prefecture's value. */
  function FormatText(v: Value): Result<string> {
    if v.Str? then Ok(v.text) else Err(ValueError)
  }

  /** `_get_document_name(date, row)` of the later version: the name from the row's own `fuel_type` and, when the row has one, `prefecture`; a row without a fuel type raises `KeyError`. */
  function RowDocumentName(d: Date, row: Row): (r: Result<string>)
    ensures r.Err? ==> "fuel_type" !in row || !row["fuel_type"].Str? || ("prefecture" in row && !row["prefecture"].Str?)
    ensures "fuel_type" !in row ==> r == Err(KeyError)
  {
    if "fuel_type" !in row then Err(KeyError)
    else
      match FormatText(row["fuel_type"])
      case Err(e) => Err(e)
      case Ok(f) =>
        if "prefecture" in row then
          match FormatText(row["prefecture"])
          case Err(e) => Err(e)
          case Ok(p) => Ok(IsoFormat(d) + "_" + f + "_" + p)
        else Ok(IsoFormat(d) + "_" + f)
  }

  /** The prefecture of a record, if it has one. */
  function RecordPrefecture(r: Record): Option<Prefecture> {
    if r.PrefectureRecord? then Some(r.prefecture) else None
  }

  /** For the row of a record, the name read from the row is the name of the record's fuel type and prefecture. */
  lemma RowDocumentNameOfRecord(d: Date, r: Record)
    ensures RowDocumentName(d, RecordRow(r)) == Ok(DocumentName(d, r.fuelType, RecordPrefecture(r)))
  {
  }

  // ---------------------------------------------------------------------
  // Documents and update_data
  // ---------------------------------------------------------------------

  /** The document of a row: `date` is the ISO date, then every value of the row, stringified when a Decimal, overrides. */
  function ToDocument(row: Row, d: Date): (doc: Row)
    ensures doc.Keys == row.Keys + {"date"}
    ensures "date" !in row ==> doc["date"] == Str(IsoFormat(d))
    ensures forall k :: k in row ==> doc[k] == Mongo.Stringify(row[k])
  {
    map["date" := Str(IsoFormat(d))] + (map k | k in row :: Mongo.Stringify(row[k]))
  }

  /** A collection of named documents. */
  type Collection = map<string, Row>

  /** The collection after a run of writes, and the exception that stopped it, if any: the writes before the exception stay. */
  datatype Outcome = Outcome(collection: Collection, error: Option<Error>)

  /** `update_data` of the later version: each row's document is set under the row's name, in row order. */
  function KeyedUpdate(c: Collection, d: Date, rows: seq<Row>): Outcome
    decreases |rows|
  {
    if rows == [] then Outcome(c, None)
    else
      match RowDocumentName(d, rows[0])
      case Err(e) => Outcome(c, Some(e))
      case Ok(name) => KeyedUpdate(c[name := ToDocument(rows[0], d)], d, rows[1..])
  }

  /** The rows of records. */
  function RecordRows(rs: seq<Record>): (rows: seq<Row>)
    ensures |rows| == |rs|
    ensures forall i :: 0 <= i < |rs| ==> rows[i] == RecordRow(rs[i])
  {
    seq(|rs|, i requires 0 <= i < |rs| => RecordRow(rs[i]))
  }

  /** The name of a record's document. */
  function NameOf(d: Date, r: Record): string {
    DocumentName(d, r.fuelType, RecordPrefecture(r))
  }

  /** The names of the records' documents. */
  function RecordNames(d: Date, rs: seq<Record>): set<string> {
    set i | 0 <= i < |rs| :: NameOf(d, rs[i])
  }

  /** The writes of records: each record's document under its name. */
  function RecordWrites(d: Date, rs: seq<Record>): (ws: seq<(string, Row)>)
    ensures |ws| == |rs|
    ensures forall i :: 0 <= i < |rs| ==> ws[i] == (NameOf(d, rs[i]), ToDocument(RecordRow(rs[i]), d))
  {
    seq(|rs|, i requires 0 <= i < |rs| => (NameOf(d, rs[i]), ToDocument(RecordRow(rs[i]), d)))
  }

  /** The writes of rows that all have names: each row's document under the row's name. */
  function RowWrites(d: Date, rows: seq<Row>): (ws: seq<(string, Row)>)
    requires forall i :: 0 <= i < |rows| ==> RowDocumentName(d, rows[i]).Ok?
    ensures |ws| == |rows|
    ensures forall i :: 0 <= i < |rows| ==> ws[i] == (RowDocumentName(d, rows[i]).value, ToDocument(rows[i], d))
  {
    seq(|rows|, i requires 0 <= i < |rows| => (RowDocumentName(d, rows[i]).value, ToDocument(rows[i], d)))
  }

  /** When every row has a name, the update never fails: it is the run of the rows' writes. */
  lemma {:induction false} KeyedUpdateNamed(c: Collection, d: Date, rows: seq<Row>)
    requires forall i :: 0 <= i < |rows| ==> RowDocumentName(d, rows[i]).Ok?
    ensures KeyedUpdate(c, d, rows) == Outcome(Writes(c, RowWrites(d, rows)), None)
    decreases |rows|
  {
    if rows != [] {
      var name := RowDocumentName(d, rows[0]).value;
      KeyedUpdateNamed(c[name := ToDocument(rows[0], d)], d, rows[1..]);
      assert RowWrites(d, rows)[1..] == RowWrites(d, rows[1..]);
    }
  }

  /** Writing records never fails: it is the run of their writes. */
  lemma KeyedUpdateRecords(c: Collection, d: Date, rs: seq<Record>)
    ensures KeyedUpdate(c, d, RecordRows(rs)) == Outcome(Writes(c, RecordWrites(d, rs)), None)
  {
    var rows := RecordRows(rs);
    forall i | 0 <= i < |rows|
      ensures RowDocumentName(d, rows[i]) == Ok(NameOf(d, rs[i]))
    {
      RowDocumentNameOfRecord(d, rs[i]);
    }
    KeyedUpdateNamed(c, d, rows);
    assert RowWrites(d, rows) == RecordWrites(d, rs);
  }

  /** Storing records leaves under each record's name the document of the
      last record of that name, and every other document as it was. */
  lemma KeyedUpdateLastWins(c: Collection, d: Date, rs: seq<Record>)
    ensures KeyedUpdate(c, d, RecordRows(rs)).error.None?
    ensures KeyedUpdate(c, d, RecordRows(rs)).collection.Keys == c.Keys + RecordNames(d, rs)
    ensures forall i :: 0 <= i < |rs| && (forall j :: i < j < |rs| ==> NameOf(d, rs[j]) != NameOf(d, rs[i])) ==>
      NameOf(d, rs[i]) in KeyedUpdate(c, d, RecordRows(rs)).collection
      && KeyedUpdate(c, d, RecordRows(rs)).collection[NameOf(d, rs[i])] == ToDocument(RecordRow(rs[i]), d)
    ensures forall k :: k in c && k !in RecordNames(d, rs) ==>
      k in KeyedUpdate(c, d, RecordRows(rs)).collection && KeyedUpdate(c, d, RecordRows(rs)).collection[k] == c[k]
  {
    KeyedUpdateRecords(c, d, rs);
    var ws := RecordWrites(d, rs);
    WritesLast(c, ws);
    assert WrittenKeys(ws) == RecordNames(d, rs) by {
      forall k | k in RecordNames(d, rs)
        ensures k in WrittenKeys(ws)
      {
        var i :| 0 <= i < |rs| && k == NameOf(d, rs[i]);
        assert ws[i].0 == k;
      }
    }
    forall i | 0 <= i < |rs| && (forall j :: i < j < |rs| ==> NameOf(d, rs[j]) != NameOf(d, rs[i]))
      ensures Writes(c, ws)[NameOf(d, rs[i])] == ToDocument(RecordRow(rs[i]), d)
    {
      WritesLastIndex(c, ws, i);
    }
    forall k | k in c && k !in RecordNames(d, rs)
      ensures Writes(c, ws)[k] == c[k]
    {
      WritesKeeps(c, ws, k);
    }
  }

  /** Storing the same records twice leaves what storing them once does. */
  lemma KeyedUpdateIdempotent(c: Collection, d: Date, rs: seq<Record>)
    ensures var once := KeyedUpdate(c, d, RecordRows(rs)).collection;
      KeyedUpdate(once, d, RecordRows(rs)) == Outcome(once, None)
  {
    var once := KeyedUpdate(c, d, RecordRows(rs)).collection;
    KeyedUpdateRecords(c, d, rs);
    KeyedUpdateRecords(once, d, rs);
    WritesIdempotent(c, RecordWrites(d, rs));
  }

  /** Two records of one fuel type on one date end as one document: the later one. */
  lemma LastWriteWins(c: Collection, d: Date)
    ensures var first := CountryRecord(Diesel, Some(10), Some(Decimal(false, 1500, -3)));
      var second := CountryRecord(Diesel, Some(12), Some(Decimal(false, 1600, -3)));
      var o := KeyedUpdate(c, d, RecordRows([first, second]));
      o.error.None? && NameOf(d, first) in o.collection && o.collection[NameOf(d, first)] == ToDocument(RecordRow(second), d)
  {
    var first := CountryRecord(Diesel, Some(10), Some(Decimal(false, 1500, -3)));
    var second := CountryRecord(Diesel, Some(12), Some(Decimal(false, 1600, -3)));
    var rs := [first, second];
    KeyedUpdateLastWins(c, d, rs);
    assert NameOf(d, rs[1]) == NameOf(d, first);
  }

  /** `update_data` of the earlier version. The name is computed before the
      write and then discarded (the write goes to an auto-generated id), and
      computing it reads `.value` from the row's `fuel_type`, which the
      parsers already store as the value text: the first row raises
      `AttributeError`, or `KeyError` when it has no fuel type, and nothing
      is written. Documents with auto-generated ids are a sequence. */
  function AutoIdUpdate(c: seq<Row>, d: Date, rows: seq<Row>): (o: (seq<Row>, Option<Error>))
    ensures rows == [] ==> o == (c, None)
    ensures rows != [] ==> o.0 == c && o.1.Some?
  {
    if rows == [] then (c, None)
    else if "fuel_type" !in rows[0] then (c, Some(KeyError))
    else (c, Some(AttributeError))
  }

  /** The earlier update stores none of a record's rows, where the later one stores the record under its name. */
  lemma AutoIdUpdateStoresNothing(c: seq<Row>, k: Collection, d: Date, r: Record)
    ensures AutoIdUpdate(c, d, RecordRows([r])) == (c, Some(AttributeError))
    ensures var o := KeyedUpdate(k, d, RecordRows([r]));
      o.error.None? && NameOf(d, r) in o.collection && o.collection[NameOf(d, r)] == ToDocument(RecordRow(r), d)
  {
    KeyedUpdateRecords(k, d, [r]);
    assert RecordWrites(d, [r]) == [(NameOf(d, r), ToDocument(RecordRow(r), d))];
  }

  /** A stored record's document carries the ISO date, and its price reads back as the record's. */
  lemma ToDocumentRecord(r: Record, d: Date)
    ensures var doc := ToDocument(RecordRow(r), d);
      doc["date"] == Str(IsoFormat(d))
      && Mongo.ReadPrice(doc["price"]) == Some(RecordRow(r)["price"])
  {
    RecordRowKeys(r);
    var row := RecordRow(r);
    assert row["price"].Dec? || row["price"].Null?;
    DocumentFields(row, d);
    Mongo.ReadPriceStringify(row["price"]);
  }

  lemma DocumentFields(row: Row, d: Date)
    requires "date" !in row && "price" in row
    ensures ToDocument(row, d)["date"] == Str(IsoFormat(d))
    ensures ToDocument(row, d)["price"] == Mongo.Stringify(row["price"])
  {
  }

  /** With its price read back, a stored record's document reads as the same record. */
  lemma ToDocumentReadsBack(r: Record, d: Date)
    ensures RowRecord(ToDocument(RecordRow(r), d)["price" := RecordRow(r)["price"]]) == Some(r)
  {
    var row := RecordRow(r);
    RecordRowKeys(r);
    Mongo.RecordRowPriceOnly(r);
    PriceRestored(row, d);
    RecordRowRoundTrip(r);
    RowRecordReadsFields(row, ToDocument(row, d)["price" := row["price"]]);
  }

  lemma PriceRestored(row: Row, d: Date)
    requires "price" in row && "date" !in row
    requires forall k :: k in row && k != "price" ==> !row[k].Dec?
    ensures SameFields(row, ToDocument(row, d)["price" := row["price"]])
  {
    var restored := ToDocument(row, d)["price" := row["price"]];
    assert forall k :: k in row ==> k in restored && restored[k] == row[k];
  }
}
