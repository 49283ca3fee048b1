/** Importing bulletins into the storage, in its two versions: the `import`
    command, which stops at the first failure and reports it, and the
    importer module, which logs a failed fetch or write and goes on with the
    next date, but ends when computing a window or stepping through its
    dates raises.
    Fetching and parsing a bulletin is a parameter: a function from the
    file type and the date to the parsed rows of each data type, or the
    error it raised.
 */
module Importing {
  import opened Options
  import opened Calendar
  import opened Enums
  import opened Records
  import opened Storage
  import opened Services
  import Arguments
  import Text

  // ---------------------------------------------------------------------
  // Arguments
  // ---------------------------------------------------------------------

  /** `_MIN_FILE_TYPE_DATES`: the first bulletin of each data type on the site. */
  function MinFileTypeDate(t: DataType): Date {
    match t
    case WeeklyCountry => Ymd(2012, 4, 27)
    case WeeklyPrefecture => Ymd(2012, 4, 27)
    case DailyCountry => Ymd(2017, 3, 14)
    case DailyPrefecture => Ymd(2017, 3, 14)
  }

  /** The data types of one file share their first date: 2012-04-27, a
      Friday, for the weekly bulletin and 2017-03-14 for the daily ones; it
      is a publication date of the file, so an import from it starts there. */
  lemma MinFileTypeDates(ft: DataFileType, t: DataType)
    requires t in DataTypes(ft)
    ensures MinFileTypeDate(t) == if ft == Weekly then Ymd(2012, 4, 27) else Ymd(2017, 3, 14)
    ensures Published(ft, MinFileTypeDate(t))
    ensures Dates(ft, MinFileTypeDate(t), MinFileTypeDate(t)) == [MinFileTypeDate(t)]
  {
    var d := MinFileTypeDate(t);
    if ft == Weekly {
      WeekdayOf(2012, 4, 27, Friday);
    }
    DatesSingle(ft, d);
  }

  /** `parse_data_file_type`. */
  function ParseDataFileTypes(s: string): Result<Option<seq<DataFileType>>> {
    Arguments.ParseNames(s, DataFileTypeFromName)
  }

  /** An empty argument selects nothing; otherwise each comma-separated name,
      in any letter case, must name a data file type, in the order listed. */
  lemma ParseDataFileTypesMeaning(s: string)
    ensures ParseDataFileTypes(s) == Ok(None) <==> s == ""
    ensures ParseDataFileTypes(s).Err? ==> ParseDataFileTypes(s).error == ArgumentTypeError
    ensures ParseDataFileTypes(s).Ok? && s != "" ==> var parts := Text.SplitOn(Text.Upper(s), ',');
      |ParseDataFileTypes(s).value.value| == |parts|
      && forall i :: 0 <= i < |parts| ==> DataFileTypeName(ParseDataFileTypes(s).value.value[i]) == parts[i]
  {
  }

  /** Data file type names are upper case and free of commas. */
  lemma DataFileTypeNameUpper(t: DataFileType)
    ensures Text.NoLower(DataFileTypeName(t)) && ',' !in DataFileTypeName(t)
  {
    match t
    case Weekly =>
    case DailyCountryFile =>
    case DailyPrefectureFile =>
  }

  /** The names of data file types joined with commas parse back to them. */
  lemma ParseDataFileTypesRoundTrip(xs: seq<DataFileType>)
    requires xs != []
    ensures ParseDataFileTypes(Text.Join(Arguments.Each(xs, DataFileTypeName), ",")) == Ok(Some(xs))
  {
    forall i | 0 <= i < |xs|
      ensures DataFileTypeFromName(DataFileTypeName(xs[i])) == Ok(xs[i])
      ensures Text.NoLower(DataFileTypeName(xs[i])) && ',' !in DataFileTypeName(xs[i])
    {
      DataFileTypeNameRoundTrip(xs[i]);
      DataFileTypeNameUpper(xs[i]);
    }
    Arguments.ParseNamesRoundTrip(xs, DataFileTypeName, DataFileTypeFromName);
  }

  // ---------------------------------------------------------------------
  // The fetch window
  // ---------------------------------------------------------------------

  /** The latest stored date of the data type, or the fallback when it has none. */
  function LatestOr(s: Store, t: DataType, fallback: Date): (d: Date)
    ensures (forall e :: !DataExists(s, t, e)) ==> d == fallback
    ensures (exists e :: DataExists(s, t, e)) ==> DataExists(s, t, d) && forall e :: DataExists(s, t, e) ==> LessEq(e, d)
  {
    match DateRange(s, t).1
    case Some(latest) => latest
    case None => fallback
  }

  /** `get_fetch_date_range` of the import command, on a storage whose
      `date_range` is the pair (earliest, latest): a given start date is
      kept, otherwise the import resumes at the latest stored date, or starts
      at the first bulletin when nothing is stored; the end date defaults to
      today. On a storage returning a `models.DateRange` this is the window
      the command means, the latest date being its `end_date` as the
      importer reads it; as written the command gets no window there (see
      `StartUnpacked`). */
  function FetchDateRange(s: Store, t: DataType, start: Option<Date>, end: Option<Date>, today: Date): (r: (Date, Date))
    ensures start.Some? ==> r.0 == start.value
    ensures start.None? && (forall e :: !DataExists(s, t, e)) ==> r.0 == MinFileTypeDate(t)
    ensures start.None? && (exists e :: DataExists(s, t, e)) ==>
      DataExists(s, t, r.0) && forall e :: DataExists(s, t, e) ==> LessEq(e, r.0)
    ensures r.1 == if end.Some? then end.value else today
  {
    (if start.Some? then start.value else LatestOr(s, t, MinFileTypeDate(t)),
     if end.Some? then end.value else today)
  }

  /** `models.DateRange`, the window an import fetches. */
  datatype Window = Window(startDate: Date, endDate: Date)

  /** `get_fetch_date_range` of the importer: a given start date is kept;
      otherwise the window starts at the `end_date` of the stored range, and
      when nothing is stored the fallback `data_type.min_date` names an
      attribute `enums.DataType` does not have, so it raises AttributeError.
      The end date defaults to today. */
  function ImporterDateRange(s: Store, t: DataType, start: Option<Date>, end: Option<Date>, today: Date): (r: Result<Window>)
    ensures start.Some? ==> r == Ok(Window(start.value, if end.Some? then end.value else today))
    ensures start.None? ==> (r.Err? <==> forall e :: !DataExists(s, t, e))
    ensures r.Err? ==> r.error == AttributeError
    ensures start.None? && r.Ok? ==>
      DataExists(s, t, r.value.startDate) && forall e :: DataExists(s, t, e) ==> LessEq(e, r.value.startDate)
    ensures r.Ok? ==> r.value.endDate == if end.Some? then end.value else today
  {
    var stop := if end.Some? then end.value else today;
    if start.Some? then Ok(Window(start.value, stop))
    else
      match DateRange(s, t).1
      case Some(latest) => Ok(Window(latest, stop))
      case None => Err(AttributeError)
  }

  /** Resuming an import: with data stored and no start date, the window
      starts at the latest stored date, so the last imported day is fetched
      again and no earlier one is. The importer's window resumes there too. */
  lemma FetchDateRangeResumes(s: Store, t: DataType, end: Option<Date>, today: Date, e: Date)
    requires DataExists(s, t, e)
    ensures var (start, stop) := FetchDateRange(s, t, None, end, today);
      DataExists(s, t, start) && LessEq(e, start)
      && forall d :: d in Dates(DataFileOf(t), start, stop) ==> LessEq(e, d)
    ensures ImporterDateRange(s, t, None, end, today) == Ok(Window(FetchDateRange(s, t, None, end, today).0, FetchDateRange(s, t, None, end, today).1))
  {
    var (start, stop) := FetchDateRange(s, t, None, end, today);
    DatesWithin(DataFileOf(t), start, stop);
  }

  /** The file type a data type is read from. */
  function DataFileOf(t: DataType): (ft: DataFileType)
    ensures t in DataTypes(ft)
  {
    match t
    case WeeklyCountry => Weekly
    case WeeklyPrefecture => Weekly
    case DailyCountry => DailyCountryFile
    case DailyPrefecture => DailyPrefectureFile
  }

  // ---------------------------------------------------------------------
  // Fetching and writing one date
  // ---------------------------------------------------------------------

  /** A parsed bulletin: the rows of each data type it holds. */
  type FileData = map<DataType, seq<Record>>

  /** Fetching and parsing the bulletin of a file type and a date. */
  type Fetch = (DataFileType, Date) -> Result<FileData>

  /** `file_data.get(data_type, [])`. */
  function RowsOf(data: FileData, t: DataType): seq<Record> {
    if t in data then data[t] else []
  }

  predicate AllFit(t: DataType, rows: seq<Record>) {
    forall i :: 0 <= i < |rows| ==> Fits(t, rows[i])
  }

  /** `update_data` with fetched rows: `model(**row)` raises TypeError for a
      row whose fields are not the table's columns, and the commit raises
      IntegrityError for rows that leave a NOT NULL column empty or repeat a
      unique key. */
  function Write(s: Store, d: Date, t: DataType, rows: seq<Record>): (r: Result<Store>)
    ensures r.Ok? <==> Admissible(t, rows)
    ensures r.Err? ==> r.error == if AllFit(t, rows) then IntegrityError else TypeError
    ensures r.Ok? ==> RecordsOn(TableOf(r.value, t), d) == rows
    ensures r.Ok? ==> forall u, e :: u != t || e != d ==> RecordsOn(TableOf(r.value, u), e) == RecordsOn(TableOf(s, u), e)
  {
    AdmissibleMeaning(t, rows);
    if !AllFit(t, rows) then Err(TypeError)
    else if !Admissible(t, rows) then Err(IntegrityError)
    else Ok(UpdateData(s, d, t, rows))
  }

  /** The tables keep to their constraints across a write. */
  lemma WriteKeepsConstraints(s: Store, d: Date, t: DataType, rows: seq<Record>)
    requires Constrained(s) && Write(s, d, t, rows).Ok?
    ensures Constrained(Write(s, d, t, rows).value)
  {
    var r := Write(s, d, t, rows).value;
    forall u: DataType, e: Date
      ensures Admissible(u, RecordsOn(TableOf(r, u), e))
    {
      if u != t || e != d {
        assert RecordsOn(TableOf(r, u), e) == RecordsOn(TableOf(s, u), e);
      }
    }
  }

  /** The fetch of a date or the write of its rows raises. */
  predicate Fails(fetch: Fetch, ft: DataFileType, t: DataType, d: Date) {
    fetch(ft, d).Err? || !Admissible(t, RowsOf(fetch(ft, d).value, t))
  }

  /** The rows of a data type and a date are the same in two stores. */
  predicate Unchanged(s: Store, r: Store, t: DataType, d: Date) {
    RecordsOn(TableOf(r, t), d) == RecordsOn(TableOf(s, t), d)
  }

  /** Fetching the bulletin of a date and writing the rows of one data type. */
  function FetchWrite(s: Store, ft: DataFileType, t: DataType, d: Date, fetch: Fetch): (r: Result<Store>)
    ensures r.Err? <==> Fails(fetch, ft, t, d)
    ensures r.Ok? ==> RecordsOn(TableOf(r.value, t), d) == RowsOf(fetch(ft, d).value, t)
    ensures r.Ok? ==> forall u, e :: u != t || e != d ==> Unchanged(s, r.value, u, e)
  {
    match fetch(ft, d)
    case Err(e) => Err(e)
    case Ok(data) => Write(s, d, t, RowsOf(data, t))
  }

  // ---------------------------------------------------------------------
  // The import command
  // ---------------------------------------------------------------------

  /** How a storage declares `data_exists` and what its `date_range`
      returns. The abstract storage, the Firebase storage and the services
      take a file type and answer for all its data types, and return the
      range as a pair; the SQLAlchemy storage, which `get_storage` opens,
      and the Mongo storage take one data type and return a
      `models.DateRange`. */
  datatype StorageApi = ByFileType | ByDataType

  /** `data_exists(data_file_type=ft, date=d)`: a storage whose parameter is
      `data_type` refuses the keyword with TypeError. */
  function CallDataExists(s: Store, sig: StorageApi, ft: DataFileType, d: Date): (r: Result<bool>)
    ensures r.Ok? <==> sig == ByFileType
    ensures r.Ok? ==> (r.value <==> forall i :: 0 <= i < |DataTypes(ft)| ==> DataExists(s, DataTypes(ft)[i], d))
    ensures r.Err? ==> r.error == TypeError
  {
    if sig == ByFileType then Ok(FileDataExists(s, ft, d)) else Err(TypeError)
  }

  /** The store an import leaves and whether it met an error. */
  datatype Outcome = Outcome(store: Store, error: bool)

  /** One date of one data type: fetched and written when `--update` is
      given or the file's data for the date is missing; without `--update`
      the storage is asked first, and a storage taking `data_type` raises. */
  function ImportDate(s: Store, sig: StorageApi, ft: DataFileType, t: DataType, d: Date, update: bool, fetch: Fetch): (r: Result<Store>)
    ensures !update && sig == ByDataType ==> r == Err(TypeError)
    ensures update || sig == ByFileType ==> (r.Err? <==> (update || !FileDataExists(s, ft, d)) && Fails(fetch, ft, t, d))
    ensures r.Ok? && (update || !FileDataExists(s, ft, d)) ==> RecordsOn(TableOf(r.value, t), d) == RowsOf(fetch(ft, d).value, t)
    ensures r.Ok? && !update && FileDataExists(s, ft, d) ==> r.value == s
    ensures r.Ok? ==> forall u, e :: u != t || e != d ==> Unchanged(s, r.value, u, e)
  {
    if update then FetchWrite(s, ft, t, d, fetch)
    else
      match CallDataExists(s, sig, ft, d)
      case Err(e) => Err(e)
      case Ok(present) => if present then Ok(s) else FetchWrite(s, ft, t, d, fetch)
  }

  /** The storage of the command refuses the question before anything is fetched. */
  predicate Refused(sig: StorageApi, update: bool) {
    !update && sig == ByDataType
  }

  /** The dates of one data type, in order, stopping at the first error. */
  function ImportDates(s: Store, sig: StorageApi, ft: DataFileType, t: DataType, dates: seq<Date>, update: bool, fetch: Fetch): (r: Outcome)
    ensures Refused(sig, update) ==> r == Outcome(s, dates != [])
    ensures r.error ==> Refused(sig, update) || exists k :: 0 <= k < |dates| && Fails(fetch, ft, t, dates[k])
    decreases |dates|
  {
    if dates == [] then Outcome(s, false)
    else
      match ImportDate(s, sig, ft, t, dates[0], update, fetch)
      case Err(_) => Outcome(s, true)
      case Ok(next) =>
        var r := ImportDates(next, sig, ft, t, dates[1..], update, fetch);
        if r.error && !Refused(sig, update) then
          var k :| 0 <= k < |dates[1..]| && Fails(fetch, ft, t, dates[1..][k]);
          assert Fails(fetch, ft, t, dates[k + 1]);
          r
        else r
  }

  /** A date is due, because `--update` is given or its file's data is
      missing, and its fetch or write fails. */
  predicate DueFailing(s: Store, ft: DataFileType, t: DataType, d: Date, update: bool, fetch: Fetch) {
    (update || !FileDataExists(s, ft, d)) && Fails(fetch, ft, t, d)
  }

  /** Some of the dates is due and its fetch or write fails. */
  predicate AnyDueFailing(s: Store, ft: DataFileType, t: DataType, dates: seq<Date>, update: bool, fetch: Fetch)
    decreases |dates|
  {
    dates != [] && (DueFailing(s, ft, t, dates[0], update, fetch) || AnyDueFailing(s, ft, t, dates[1..], update, fetch))
  }

  /** Over distinct dates an import errs exactly when the storage refuses the
      question, or when some date is due before the import and its fetch or
      write fails. */
  lemma {:induction false} ImportDatesErrors(s: Store, sig: StorageApi, ft: DataFileType, t: DataType, dates: seq<Date>, update: bool, fetch: Fetch)
    requires forall i, j :: 0 <= i < j < |dates| ==> dates[i] != dates[j]
    ensures ImportDates(s, sig, ft, t, dates, update, fetch).error <==>
      if Refused(sig, update) then dates != [] else AnyDueFailing(s, ft, t, dates, update, fetch)
    decreases |dates|
  {
    if dates != [] && !Refused(sig, update) {
      var first := ImportDate(s, sig, ft, t, dates[0], update, fetch);
      var rest := dates[1..];
      ImportDatesStep(s, sig, ft, t, dates, update, fetch);
      if first.Ok? {
        ImportDatesErrors(first.value, sig, ft, t, rest, update, fetch);
        RestUntouched(s, first.value, t, dates);
        DueFailingKept(s, first.value, ft, t, rest, update, fetch);
      }
    }
  }

  /** A step on the first of distinct dates leaves the rows of the others alone. */
  lemma RestUntouched(s: Store, mid: Store, t: DataType, dates: seq<Date>)
    requires dates != [] && forall i, j :: 0 <= i < j < |dates| ==> dates[i] != dates[j]
    requires forall u, e :: u != t || e != dates[0] ==> Unchanged(s, mid, u, e)
    ensures forall u, e :: e in dates[1..] ==> Unchanged(s, mid, u, e)
  {
    assert dates[0] !in dates[1..] by {
      forall j | 0 <= j < |dates[1..]|
        ensures dates[1..][j] != dates[0]
      {
        assert dates[1..][j] == dates[j + 1];
      }
    }
  }

  /** Stores that agree on the rows of some dates agree on which of them are due and fail. */
  lemma {:induction false} DueFailingKept(s: Store, mid: Store, ft: DataFileType, t: DataType, dates: seq<Date>, update: bool, fetch: Fetch)
    requires forall u, e :: e in dates ==> Unchanged(s, mid, u, e)
    ensures AnyDueFailing(mid, ft, t, dates, update, fetch) == AnyDueFailing(s, ft, t, dates, update, fetch)
    decreases |dates|
  {
    if dates != [] {
      assert SameOn(mid, s, ft, dates[0]);
      SameOnExists(mid, s, ft, dates[0]);
      assert forall e :: e in dates[1..] ==> e in dates;
      DueFailingKept(s, mid, ft, t, dates[1..], update, fetch);
    }
  }

  /** The arguments of the import command that decide what is written. */
  datatype ImportArgs = ImportArgs(types: Option<seq<DataFileType>>, start: Option<Date>, end: Option<Date>, update: bool)

  /** Some fetch or write raises. */
  ghost predicate Broken(fetch: Fetch) {
    exists ft, t, d :: Fails(fetch, ft, t, d)
  }

  /** `_, start_date = s.date_range(data_type=data_type)` on a storage
      returning a `models.DateRange`: iterating the pydantic model yields its
      (field, value) pairs, so without `--start-date` the start is the pair
      ('end_date', …). The pair is truthy, so there is no fallback, and the
      first comparison `current_date <= end_date` of `dates()` raises
      TypeError before any date is visited. */
  predicate StartUnpacked(sig: StorageApi, args: ImportArgs) {
    sig == ByDataType && args.start.None?
  }

  /** The window of the command ends on the last representable day. */
  predicate EndsLast(args: ImportArgs, today: Date) {
    (if args.end.Some? then args.end.value else today) == LastDate
  }

  /** Each data type of a file in turn, its window computed from the store as it then is. */
  function ImportDataTypes(s: Store, sig: StorageApi, ft: DataFileType, ts: seq<DataType>, args: ImportArgs, today: Date, fetch: Fetch): (r: Outcome)
    ensures StartUnpacked(sig, args) ==> r == Outcome(s, ts != [])
    ensures r.error ==> StartUnpacked(sig, args) || Refused(sig, args.update) || Broken(fetch) || EndsLast(args, today)
    decreases |ts|
  {
    if ts == [] then Outcome(s, false)
    else
      var o := ImportDataType(s, sig, ft, ts[0], args, today, fetch);
      if o.error then o
      else ImportDataTypes(o.store, sig, ft, ts[1..], args, today, fetch)
  }

  /** The publication dates of a data type's fetch window. */
  function PassDates(s: Store, ft: DataFileType, t: DataType, args: ImportArgs, today: Date): seq<Date> {
    var (start, end) := FetchDateRange(s, t, args.start, args.end, today);
    Dates(ft, start, end)
  }

  /** The generator of the fetch window's dates raises `OverflowError` once
      it has yielded them all, because the window ends on the last day. */
  predicate PassOverflows(s: Store, ft: DataFileType, t: DataType, args: ImportArgs, today: Date) {
    var (start, end) := FetchDateRange(s, t, args.start, args.end, today);
    DatesOverflow(start, end)
  }

  /** One data type of a file: the publication dates of its fetch range,
      drawn from `dates()`, which raises TypeError at once when the start was
      unpacked from a `models.DateRange`, and raises after the last date
      when the window ends on 9999-12-31. */
  function ImportDataType(s: Store, sig: StorageApi, ft: DataFileType, t: DataType, args: ImportArgs, today: Date, fetch: Fetch): (r: Outcome)
    ensures StartUnpacked(sig, args) ==> r == Outcome(s, true)
    ensures !StartUnpacked(sig, args) && Refused(sig, args.update) ==>
      r == Outcome(s, PassDates(s, ft, t, args, today) != [] || PassOverflows(s, ft, t, args, today))
    ensures r.error ==>
      (StartUnpacked(sig, args) || Refused(sig, args.update) || PassOverflows(s, ft, t, args, today)
       || exists d :: d in PassDates(s, ft, t, args, today) && Fails(fetch, ft, t, d))
    ensures PassOverflows(s, ft, t, args, today) ==> r.error && EndsLast(args, today)
  {
    if StartUnpacked(sig, args) then Outcome(s, true)
    else
      var dates := PassDates(s, ft, t, args, today);
      var o := ImportDates(s, sig, ft, t, dates, args.update, fetch);
      assert o.error && !Refused(sig, args.update) ==> exists d :: d in dates && Fails(fetch, ft, t, d) by {
        if o.error && !Refused(sig, args.update) {
          var k :| 0 <= k < |dates| && Fails(fetch, ft, t, dates[k]);
          assert dates[k] in dates;
        }
      }
      if o.error then o else Outcome(o.store, PassOverflows(s, ft, t, args, today))
  }

  /** Each file type in turn, stopping at the first error. */
  function ImportFileTypes(s: Store, sig: StorageApi, fts: seq<DataFileType>, args: ImportArgs, today: Date, fetch: Fetch): (r: Outcome)
    ensures StartUnpacked(sig, args) ==> r == Outcome(s, fts != [])
    ensures r.error ==> StartUnpacked(sig, args) || Refused(sig, args.update) || Broken(fetch) || EndsLast(args, today)
    decreases |fts|
  {
    if fts == [] then Outcome(s, false)
    else
      var o := ImportDataTypes(s, sig, fts[0], DataTypes(fts[0]), args, today, fetch);
      if o.error then o else ImportFileTypes(o.store, sig, fts[1..], args, today, fetch)
  }

  /** The file types `import_data` goes through: every data file type unless `--types` selects some. */
  function SelectedFileTypes(args: ImportArgs): seq<DataFileType> {
    if args.types.Some? then args.types.value else AllDataFileTypes
  }

  /** `import_data` against a storage of the given interface: true in
      `error` when some call raised. */
  function ImportData(s: Store, sig: StorageApi, args: ImportArgs, today: Date, fetch: Fetch): (r: Outcome)
    ensures StartUnpacked(sig, args) ==> r == Outcome(s, SelectedFileTypes(args) != [])
    ensures r.error ==> StartUnpacked(sig, args) || Refused(sig, args.update) || Broken(fetch) || EndsLast(args, today)
  {
    ImportFileTypes(s, sig, SelectedFileTypes(args), args, today, fetch)
  }

  /** Some of the data types has a publication date in its fetch window, or a window ending on the last day. */
  predicate AnyPass(s: Store, ft: DataFileType, ts: seq<DataType>, args: ImportArgs, today: Date)
    decreases |ts|
  {
    ts != [] && (PassDates(s, ft, ts[0], args, today) != [] || PassOverflows(s, ft, ts[0], args, today)
                 || AnyPass(s, ft, ts[1..], args, today))
  }

  /** Some data type of the file types has a publication date in its fetch window, or a window ending on the last day. */
  predicate AnyDue(s: Store, fts: seq<DataFileType>, args: ImportArgs, today: Date)
    decreases |fts|
  {
    fts != [] && (AnyPass(s, fts[0], DataTypes(fts[0]), args, today) || AnyDue(s, fts[1..], args, today))
  }

  /** The import command as written, on the SQLAlchemy storage: without
      `--update` the first date it visits raises TypeError, so nothing is
      imported, and an error is reported whenever there was a date to visit;
      without `--start-date` the first pass raises before any date. */
  lemma ImportDataAsWritten(s: Store, args: ImportArgs, today: Date, fetch: Fetch)
    requires !args.update
    ensures ImportData(s, ByDataType, args, today, fetch) ==
      Outcome(s, if args.start.None? then SelectedFileTypes(args) != [] else AnyDue(s, SelectedFileTypes(args), args, today))
  {
    if args.start.Some? {
      FileTypesRefused(s, SelectedFileTypes(args), args, today, fetch);
    }
  }

  /** The import command as written, on the SQLAlchemy storage, without
      `--start-date`: even with `--update` and with fetches and writes that
      never fail, the first pass raises TypeError, nothing is imported and
      an error is reported. */
  lemma ImportWithoutStartFails(s: Store, end: Option<Date>, today: Date, fetch: Fetch)
    requires !Broken(fetch)
    ensures ImportData(s, ByDataType, ImportArgs(None, None, end, true), today, fetch) == Outcome(s, true)
  {
  }

  lemma {:induction false} DataTypesRefused(s: Store, ft: DataFileType, ts: seq<DataType>, args: ImportArgs, today: Date, fetch: Fetch)
    requires !args.update && args.start.Some?
    ensures ImportDataTypes(s, ByDataType, ft, ts, args, today, fetch) == Outcome(s, AnyPass(s, ft, ts, args, today))
    decreases |ts|
  {
    if ts != [] {
      var o := ImportDataType(s, ByDataType, ft, ts[0], args, today, fetch);
      assert o == Outcome(s, PassDates(s, ft, ts[0], args, today) != [] || PassOverflows(s, ft, ts[0], args, today));
      DataTypesRefused(s, ft, ts[1..], args, today, fetch);
    }
  }

  lemma {:induction false} FileTypesRefused(s: Store, fts: seq<DataFileType>, args: ImportArgs, today: Date, fetch: Fetch)
    requires !args.update && args.start.Some?
    ensures ImportFileTypes(s, ByDataType, fts, args, today, fetch) == Outcome(s, AnyDue(s, fts, args, today))
    decreases |fts|
  {
    if fts != [] {
      DataTypesRefused(s, fts[0], DataTypes(fts[0]), args, today, fetch);
      FileTypesRefused(s, fts[1..], args, today, fetch);
    }
  }

  /** The data types of the selected file types. */
  predicate Requested(fts: seq<DataFileType>, u: DataType) {
    exists i :: 0 <= i < |fts| && u in DataTypes(fts[i])
  }

  /** A date outside the window both bounds give. */
  predicate Outside(args: ImportArgs, e: Date) {
    args.start.Some? && args.end.Some? && !(LessEq(args.start.value, e) && LessEq(e, args.end.value))
  }

  /** What `import_data` may write: only the data types of the selected file
      types, and only dates within the window when both bounds are given. */
  lemma ImportDataWrites(s: Store, sig: StorageApi, args: ImportArgs, today: Date, fetch: Fetch, u: DataType, e: Date)
    requires !Requested(SelectedFileTypes(args), u) || Outside(args, e)
    ensures Unchanged(s, ImportData(s, sig, args, today, fetch).store, u, e)
  {
    FileTypesFrame(s, sig, SelectedFileTypes(args), args, today, fetch, u, e);
  }

  /** A date outside a window is not among its publication dates. */
  lemma DatesOutside(ft: DataFileType, start: Date, end: Date, e: Date)
    requires !(LessEq(start, e) && LessEq(e, end))
    ensures e !in Dates(ft, start, end)
  {
    DatesWithin(ft, start, end);
  }

  /** One step of a pass: the first date, then the rest from the store it leaves. */
  lemma ImportDatesStep(s: Store, sig: StorageApi, ft: DataFileType, t: DataType, dates: seq<Date>, update: bool, fetch: Fetch)
    requires dates != []
    ensures var first := ImportDate(s, sig, ft, t, dates[0], update, fetch);
      ImportDates(s, sig, ft, t, dates, update, fetch) ==
        if first.Err? then Outcome(s, true) else ImportDates(first.value, sig, ft, t, dates[1..], update, fetch)
  {
  }

  lemma {:induction false} DatesFrame(s: Store, sig: StorageApi, ft: DataFileType, t: DataType, dates: seq<Date>, update: bool, fetch: Fetch, u: DataType, e: Date)
    requires u != t || e !in dates
    ensures Unchanged(s, ImportDates(s, sig, ft, t, dates, update, fetch).store, u, e)
    decreases |dates|
  {
    if dates != [] {
      var first := ImportDate(s, sig, ft, t, dates[0], update, fetch);
      var rest := dates[1..];
      ImportDatesStep(s, sig, ft, t, dates, update, fetch);
      if first.Ok? {
        assert u != t || e !in rest by {
          assert forall x :: x in rest ==> x in dates;
        }
        assert Unchanged(s, first.value, u, e);
        DatesFrame(first.value, sig, ft, t, rest, update, fetch, u, e);
      }
    }
  }

  lemma {:induction false} DataTypesFrame(s: Store, sig: StorageApi, ft: DataFileType, ts: seq<DataType>, args: ImportArgs, today: Date, fetch: Fetch, u: DataType, e: Date)
    requires u !in ts || Outside(args, e)
    ensures Unchanged(s, ImportDataTypes(s, sig, ft, ts, args, today, fetch).store, u, e)
    decreases |ts|
  {
    if ts != [] {
      var (start, end) := FetchDateRange(s, ts[0], args.start, args.end, today);
      if u == ts[0] {
        DatesOutside(ft, start, end, e);
      }
      var o := ImportDataType(s, sig, ft, ts[0], args, today, fetch);
      DatesFrame(s, sig, ft, ts[0], Dates(ft, start, end), args.update, fetch, u, e);
      if !o.error {
        assert u !in ts[1..] || Outside(args, e);
        DataTypesFrame(o.store, sig, ft, ts[1..], args, today, fetch, u, e);
      }
    }
  }

  lemma {:induction false} FileTypesFrame(s: Store, sig: StorageApi, fts: seq<DataFileType>, args: ImportArgs, today: Date, fetch: Fetch, u: DataType, e: Date)
    requires !Requested(fts, u) || Outside(args, e)
    ensures Unchanged(s, ImportFileTypes(s, sig, fts, args, today, fetch).store, u, e)
    decreases |fts|
  {
    if fts != [] {
      assert u in DataTypes(fts[0]) ==> Requested(fts, u);
      DataTypesFrame(s, sig, fts[0], DataTypes(fts[0]), args, today, fetch, u, e);
      var o := ImportDataTypes(s, sig, fts[0], DataTypes(fts[0]), args, today, fetch);
      if !o.error {
        if Requested(fts[1..], u) {
          var i :| 0 <= i < |fts[1..]| && u in DataTypes(fts[1..][i]);
          assert u in DataTypes(fts[i + 1]);
        }
        FileTypesFrame(o.store, sig, fts[1..], args, today, fetch, u, e);
      }
    }
  }

  /** Without `--update` nothing stored is overwritten: the rows of a date
      whose file data is complete before the import are the same after it. */
  lemma ImportDataKeepsExisting(s: Store, sig: StorageApi, args: ImportArgs, today: Date, fetch: Fetch, ft: DataFileType, d: Date, t: DataType)
    requires !args.update && FileDataExists(s, ft, d) && t in DataTypes(ft)
    ensures Unchanged(s, ImportData(s, sig, args, today, fetch).store, t, d)
  {
    FileTypesKeep(s, s, sig, SelectedFileTypes(args), args, today, fetch, ft, d);
  }

  /** The rows of the file's data types at d are as in s0. */
  predicate SameOn(cur: Store, s0: Store, ft: DataFileType, d: Date) {
    forall t :: t in DataTypes(ft) ==> Unchanged(s0, cur, t, d)
  }

  /** Stores that agree on the file's rows at d agree on whether its data exists. */
  lemma SameOnExists(cur: Store, s0: Store, ft: DataFileType, d: Date)
    requires SameOn(cur, s0, ft, d)
    ensures FileDataExists(cur, ft, d) <==> FileDataExists(s0, ft, d)
  {
    var ts := DataTypes(ft);
    forall i | 0 <= i < |ts|
      ensures DataExists(cur, ts[i], d) <==> DataExists(s0, ts[i], d)
    {
      assert ts[i] in DataTypes(ft);
      assert Unchanged(s0, cur, ts[i], d);
      HasDateRecords(TableOf(cur, ts[i]), d);
      HasDateRecords(TableOf(s0, ts[i]), d);
    }
  }

  /** Each data type belongs to one file type only. */
  lemma DataTypesDisjoint(ft: DataFileType, ft2: DataFileType, t: DataType)
    requires ft != ft2 && t in DataTypes(ft2)
    ensures t !in DataTypes(ft)
  {
    DataTypesPartition(t);
  }

  lemma DateKeeps(cur: Store, s0: Store, sig: StorageApi, ft2: DataFileType, t: DataType, e: Date, fetch: Fetch, ft: DataFileType, d: Date)
    requires t in DataTypes(ft2) && FileDataExists(s0, ft, d) && SameOn(cur, s0, ft, d)
    ensures ImportDate(cur, sig, ft2, t, e, false, fetch).Ok? ==> SameOn(ImportDate(cur, sig, ft2, t, e, false, fetch).value, s0, ft, d)
  {
    var r := ImportDate(cur, sig, ft2, t, e, false, fetch);
    if r.Ok? {
      if e == d && ft2 == ft {
        SameOnExists(cur, s0, ft, d);
        assert r.value == cur;
      } else {
        if e == d {
          DataTypesDisjoint(ft, ft2, t);
        }
        forall u | u in DataTypes(ft)
          ensures Unchanged(s0, r.value, u, d)
        {
          assert Unchanged(cur, r.value, u, d);
        }
      }
    }
  }

  lemma {:induction false} DatesKeep(cur: Store, s0: Store, sig: StorageApi, ft2: DataFileType, t: DataType, dates: seq<Date>, fetch: Fetch, ft: DataFileType, d: Date)
    requires t in DataTypes(ft2) && FileDataExists(s0, ft, d) && SameOn(cur, s0, ft, d)
    ensures SameOn(ImportDates(cur, sig, ft2, t, dates, false, fetch).store, s0, ft, d)
    decreases |dates|
  {
    if dates != [] {
      DateKeeps(cur, s0, sig, ft2, t, dates[0], fetch, ft, d);
      var r := ImportDate(cur, sig, ft2, t, dates[0], false, fetch);
      if r.Ok? {
        DatesKeep(r.value, s0, sig, ft2, t, dates[1..], fetch, ft, d);
      }
    }
  }

  lemma {:induction false} DataTypesKeep(cur: Store, s0: Store, sig: StorageApi, ft2: DataFileType, ts: seq<DataType>, args: ImportArgs, today: Date, fetch: Fetch, ft: DataFileType, d: Date)
    requires !args.update && (forall t :: t in ts ==> t in DataTypes(ft2))
    requires FileDataExists(s0, ft, d) && SameOn(cur, s0, ft, d)
    ensures SameOn(ImportDataTypes(cur, sig, ft2, ts, args, today, fetch).store, s0, ft, d)
    decreases |ts|
  {
    if ts != [] {
      DataTypeKeeps(cur, s0, sig, ft2, ts[0], args, today, fetch, ft, d);
      var o := ImportDataType(cur, sig, ft2, ts[0], args, today, fetch);
      if !o.error {
        DataTypesKeep(o.store, s0, sig, ft2, ts[1..], args, today, fetch, ft, d);
      }
    }
  }

  lemma DataTypeKeeps(cur: Store, s0: Store, sig: StorageApi, ft2: DataFileType, t: DataType, args: ImportArgs, today: Date, fetch: Fetch, ft: DataFileType, d: Date)
    requires !args.update && t in DataTypes(ft2)
    requires FileDataExists(s0, ft, d) && SameOn(cur, s0, ft, d)
    ensures SameOn(ImportDataType(cur, sig, ft2, t, args, today, fetch).store, s0, ft, d)
  {
    DatesKeep(cur, s0, sig, ft2, t, PassDates(cur, ft2, t, args, today), fetch, ft, d);
  }

  lemma {:induction false} FileTypesKeep(cur: Store, s0: Store, sig: StorageApi, fts: seq<DataFileType>, args: ImportArgs, today: Date, fetch: Fetch, ft: DataFileType, d: Date)
    requires !args.update && FileDataExists(s0, ft, d) && SameOn(cur, s0, ft, d)
    ensures SameOn(ImportFileTypes(cur, sig, fts, args, today, fetch).store, s0, ft, d)
    decreases |fts|
  {
    if fts != [] {
      DataTypesKeep(cur, s0, sig, fts[0], DataTypes(fts[0]), args, today, fetch, ft, d);
      var o := ImportDataTypes(cur, sig, fts[0], DataTypes(fts[0]), args, today, fetch);
      if !o.error {
        FileTypesKeep(o.store, s0, sig, fts[1..], args, today, fetch, ft, d);
      }
    }
  }

  /** The import command gives up at the first failure: when a pass over
      distinct dates meets an error, the date that raised, because the
      storage refused the question or its fetch or write failed, and every
      later one are left as they were. */
  lemma {:induction false} ImportDatesStops(s: Store, sig: StorageApi, ft: DataFileType, t: DataType, dates: seq<Date>, update: bool, fetch: Fetch)
    requires forall i, j :: 0 <= i < j < |dates| ==> dates[i] != dates[j]
    ensures var r := ImportDates(s, sig, ft, t, dates, update, fetch);
      r.error ==> exists k :: 0 <= k < |dates| && (Refused(sig, update) || Fails(fetch, ft, t, dates[k])) && UnchangedFrom(s, r.store, t, dates, k)
    decreases |dates|
  {
    if dates != [] {
      var r := ImportDates(s, sig, ft, t, dates, update, fetch);
      var first := ImportDate(s, sig, ft, t, dates[0], update, fetch);
      if first.Err? {
        assert Refused(sig, update) || Fails(fetch, ft, t, dates[0]);
        assert UnchangedFrom(s, r.store, t, dates, 0);
      } else {
        var rest := dates[1..];
        ImportDatesStops(first.value, sig, ft, t, rest, update, fetch);
        if r.error {
          var k :| 0 <= k < |rest| && (Refused(sig, update) || Fails(fetch, ft, t, rest[k])) && UnchangedFrom(first.value, r.store, t, rest, k);
          UnchangedAfterFirst(s, first.value, r.store, t, dates, k);
          assert Refused(sig, update) || Fails(fetch, ft, t, dates[k + 1]);
        }
      }
    }
  }

  /** The dates from the k-th on keep their data of data type t. */
  predicate UnchangedFrom(s: Store, r: Store, t: DataType, dates: seq<Date>, k: nat) {
    forall j :: k <= j < |dates| ==> Unchanged(s, r, t, dates[j])
  }

  /** Dates after the first, which a step on the first date did not touch, keep their data over both steps. */
  lemma UnchangedAfterFirst(s: Store, mid: Store, r: Store, t: DataType, dates: seq<Date>, k: nat)
    requires dates != [] && forall i, j :: 0 <= i < j < |dates| ==> dates[i] != dates[j]
    requires forall u, e :: u != t || e != dates[0] ==> Unchanged(s, mid, u, e)
    requires UnchangedFrom(mid, r, t, dates[1..], k)
    ensures UnchangedFrom(s, r, t, dates, k + 1)
  {
    forall j | k + 1 <= j < |dates|
      ensures Unchanged(s, r, t, dates[j])
    {
      assert dates[j] == dates[1..][j - 1] && dates[j] != dates[0];
      assert Unchanged(mid, r, t, dates[1..][j - 1]);
      assert Unchanged(s, mid, t, dates[j]);
    }
  }

  // ---------------------------------------------------------------------
  // The importer module
  // ---------------------------------------------------------------------

  /** One date of one data type: fetched and written when `update` is set or
      the data type has no data for the date; a failure is logged and leaves
      the store as it was. */
  function ImporterDate(s: Store, ft: DataFileType, t: DataType, d: Date, update: bool, fetch: Fetch): (r: Store)
    ensures (update || !DataExists(s, t, d)) && !Fails(fetch, ft, t, d) ==> RecordsOn(TableOf(r, t), d) == RowsOf(fetch(ft, d).value, t)
    ensures !(update || !DataExists(s, t, d)) || Fails(fetch, ft, t, d) ==> r == s
    ensures forall u, e :: u != t || e != d ==> Unchanged(s, r, u, e)
  {
    if update || !DataExists(s, t, d) then
      match FetchWrite(s, ft, t, d, fetch)
      case Err(_) => s
      case Ok(next) => next
    else s
  }

  /** The dates of one data type, going on after a failure. */
  function ImporterDates(s: Store, ft: DataFileType, t: DataType, dates: seq<Date>, update: bool, fetch: Fetch): Store
    decreases |dates|
  {
    if dates == [] then s
    else ImporterDates(ImporterDate(s, ft, t, dates[0], update, fetch), ft, t, dates[1..], update, fetch)
  }

  /** What the importer's `import_data` leaves: the store, and the exception
      that escaped it, if any. Window computation and the `dates()`
      generator run outside the `try`, so their errors end the run. */
  datatype Run = Run(store: Store, raised: Option<Error>)

  /** No date has rows of the data type. */
  ghost predicate NothingStored(s: Store, t: DataType) {
    forall e :: !DataExists(s, t, e)
  }

  /** The importer's window ends on the last representable day. */
  predicate ImporterEndsLast(end: Option<Date>, today: Date) {
    (if end.Some? then end.value else today) == LastDate
  }

  /** Each data type of a file in turn: its window, then its dates. The
      window raises AttributeError for a data type with nothing stored and
      no start date, and the generator raises OverflowError after the last
      date of a window ending on 9999-12-31; either ends the run. */
  function ImporterDataTypes(s: Store, ft: DataFileType, ts: seq<DataType>, start: Option<Date>, end: Option<Date>, update: bool,
                             today: Date, fetch: Fetch): (r: Run)
    ensures r.raised == Some(AttributeError) ==> start.None? && exists t :: t in ts && NothingStored(r.store, t)
    ensures r.raised.Some? && r.raised != Some(AttributeError) ==> r.raised == Some(OverflowError) && ImporterEndsLast(end, today)
    ensures start.Some? && ImporterEndsLast(end, today) && ts != [] ==> r.raised == Some(OverflowError)
    decreases |ts|
  {
    if ts == [] then Run(s, None)
    else
      match ImporterDateRange(s, ts[0], start, end, today)
      case Err(e) =>
        assert NothingStored(s, ts[0]);
        Run(s, Some(e))
      case Ok(w) =>
        var next := ImporterDates(s, ft, ts[0], Dates(ft, w.startDate, w.endDate), update, fetch);
        if DatesOverflow(w.startDate, w.endDate) then Run(next, Some(OverflowError))
        else
          OrdinalBounds(w.startDate);
          OrdinalBounds(LastDate);
          var r := ImporterDataTypes(next, ft, ts[1..], start, end, update, today, fetch);
          assert forall t :: t in ts[1..] ==> t in ts;
          r
  }

  /** `import_file_type_data`: each file type, each of its data types, each
      date of the window, until an exception escapes. */
  function ImportFileTypeData(s: Store, fts: seq<DataFileType>, start: Option<Date>, end: Option<Date>, update: bool,
                              today: Date, fetch: Fetch): (r: Run)
    ensures r.raised == Some(AttributeError) ==> start.None? && exists t :: NothingStored(r.store, t)
    ensures r.raised.Some? && r.raised != Some(AttributeError) ==> r.raised == Some(OverflowError) && ImporterEndsLast(end, today)
    ensures start.Some? && ImporterEndsLast(end, today) && fts != [] ==> r.raised == Some(OverflowError)
    decreases |fts|
  {
    if fts == [] then Run(s, None)
    else
      var o := ImporterDataTypes(s, fts[0], DataTypes(fts[0]), start, end, update, today, fetch);
      if o.raised.Some? then o
      else ImportFileTypeData(o.store, fts[1..], start, end, update, today, fetch)
  }

  /** `import_data` of the importer: every data file type unless some are given. */
  function ImporterImportData(s: Store, fts: Option<seq<DataFileType>>, start: Option<Date>, end: Option<Date>, update: bool,
                              today: Date, fetch: Fetch): (r: Run)
    ensures r.raised == Some(AttributeError) ==> start.None? && exists t :: NothingStored(r.store, t)
    ensures r.raised.Some? && r.raised != Some(AttributeError) ==> r.raised == Some(OverflowError) && ImporterEndsLast(end, today)
    ensures start.Some? && ImporterEndsLast(end, today) && fts != Some([]) ==> r.raised == Some(OverflowError)
  {
    ImportFileTypeData(s, if fts.Some? then fts.value else AllDataFileTypes, start, end, update, today, fetch)
  }

  /** The importer on a store with nothing in it and no start date: the
      first window reads `data_type.min_date`, which raises AttributeError,
      so the run ends before anything is fetched and the store stays empty. */
  lemma ImporterFreshStoreRaises(s: Store, fts: Option<seq<DataFileType>>, end: Option<Date>, update: bool, today: Date, fetch: Fetch)
    requires forall t, e :: !DataExists(s, t, e)
    requires fts != Some([])
    ensures ImporterImportData(s, fts, None, end, update, today, fetch) == Run(s, Some(AttributeError))
  {
    var ft := (if fts.Some? then fts.value else AllDataFileTypes)[0];
    assert DataTypes(ft) != [];
  }

  lemma {:induction false} ImporterDatesFrame(s: Store, ft: DataFileType, t: DataType, dates: seq<Date>, update: bool, fetch: Fetch, u: DataType, e: Date)
    requires u != t || e !in dates
    ensures Unchanged(s, ImporterDates(s, ft, t, dates, update, fetch), u, e)
    decreases |dates|
  {
    if dates != [] {
      var rest := dates[1..];
      assert u != t || e !in rest by {
        assert forall x :: x in rest ==> x in dates;
      }
      var next := ImporterDate(s, ft, t, dates[0], update, fetch);
      assert Unchanged(s, next, u, e);
      ImporterDatesFrame(next, ft, t, rest, update, fetch, u, e);
    }
  }

  /** The importer goes on after a failure: with `update` set, every date of
      a pass over distinct dates whose fetch succeeds ends up holding the
      fetched rows, whatever happened to the other dates. */
  lemma {:induction false} ImporterDatesContinue(s: Store, ft: DataFileType, t: DataType, dates: seq<Date>, fetch: Fetch, k: nat)
    requires forall i, j :: 0 <= i < j < |dates| ==> dates[i] != dates[j]
    requires k < |dates| && !Fails(fetch, ft, t, dates[k])
    ensures RecordsOn(TableOf(ImporterDates(s, ft, t, dates, true, fetch), t), dates[k]) == RowsOf(fetch(ft, dates[k]).value, t)
    decreases |dates|
  {
    var next := ImporterDate(s, ft, t, dates[0], true, fetch);
    if k == 0 {
      assert dates[0] !in dates[1..];
      ImporterDatesFrame(next, ft, t, dates[1..], true, fetch, t, dates[0]);
    } else {
      ImporterDatesContinue(next, ft, t, dates[1..], fetch, k - 1);
    }
  }

  /** The importer stores nothing over existing data without `update`: the
      rows of a data type at a date that has them are the same afterwards,
      whether or not the run ends with an exception. */
  lemma ImporterKeepsExisting(s: Store, fts: Option<seq<DataFileType>>, start: Option<Date>, end: Option<Date>,
                               today: Date, fetch: Fetch, t: DataType, d: Date)
    requires DataExists(s, t, d)
    ensures Unchanged(s, ImporterImportData(s, fts, start, end, false, today, fetch).store, t, d)
  {
    ImporterFileTypesKeep(s, s, if fts.Some? then fts.value else AllDataFileTypes, start, end, today, fetch, t, d);
  }

  lemma ImporterDateKeeps(cur: Store, s0: Store, ft: DataFileType, u: DataType, e: Date, fetch: Fetch, t: DataType, d: Date)
    requires DataExists(s0, t, d) && Unchanged(s0, cur, t, d)
    ensures Unchanged(s0, ImporterDate(cur, ft, u, e, false, fetch), t, d)
  {
    HasDateRecords(TableOf(cur, t), d);
    HasDateRecords(TableOf(s0, t), d);
  }

  lemma {:induction false} ImporterDatesKeep(cur: Store, s0: Store, ft: DataFileType, u: DataType, dates: seq<Date>, fetch: Fetch, t: DataType, d: Date)
    requires DataExists(s0, t, d) && Unchanged(s0, cur, t, d)
    ensures Unchanged(s0, ImporterDates(cur, ft, u, dates, false, fetch), t, d)
    decreases |dates|
  {
    if dates != [] {
      ImporterDateKeeps(cur, s0, ft, u, dates[0], fetch, t, d);
      ImporterDatesKeep(ImporterDate(cur, ft, u, dates[0], false, fetch), s0, ft, u, dates[1..], fetch, t, d);
    }
  }

  lemma {:induction false} ImporterDataTypesKeep(cur: Store, s0: Store, ft: DataFileType, ts: seq<DataType>, start: Option<Date>, end: Option<Date>,
                                                 today: Date, fetch: Fetch, t: DataType, d: Date)
    requires DataExists(s0, t, d) && Unchanged(s0, cur, t, d)
    ensures Unchanged(s0, ImporterDataTypes(cur, ft, ts, start, end, false, today, fetch).store, t, d)
    decreases |ts|
  {
    if ts != [] {
      var w := ImporterDateRange(cur, ts[0], start, end, today);
      if w.Ok? {
        var dates := Dates(ft, w.value.startDate, w.value.endDate);
        ImporterDatesKeep(cur, s0, ft, ts[0], dates, fetch, t, d);
        ImporterDataTypesKeep(ImporterDates(cur, ft, ts[0], dates, false, fetch), s0, ft, ts[1..], start, end, today, fetch, t, d);
      }
    }
  }

  lemma {:induction false} ImporterFileTypesKeep(cur: Store, s0: Store, fts: seq<DataFileType>, start: Option<Date>, end: Option<Date>,
                                                 today: Date, fetch: Fetch, t: DataType, d: Date)
    requires DataExists(s0, t, d) && Unchanged(s0, cur, t, d)
    ensures Unchanged(s0, ImportFileTypeData(cur, fts, start, end, false, today, fetch).store, t, d)
    decreases |fts|
  {
    if fts != [] {
      ImporterDataTypesKeep(cur, s0, fts[0], DataTypes(fts[0]), start, end, today, fetch, t, d);
      var o := ImporterDataTypes(cur, fts[0], DataTypes(fts[0]), start, end, false, today, fetch);
      if o.raised.None? {
        ImporterFileTypesKeep(o.store, s0, fts[1..], start, end, today, fetch, t, d);
      }
    }
  }
}
