# fuelpricesgr backend, modelled in Dafny

fuelpricesgr collects the fuel price bulletins that the Greek Ministry of
Development publishes as PDF files. There are three kinds: a daily country
bulletin, a daily prefecture bulletin and a weekly bulletin. The backend
downloads them, parses prices per fuel type and prefecture, stores them (SQLite,
SQLAlchemy, MongoDB or Firestore) and serves them through an HTTP API and a few
commands. This project models the backend's pure logic and proves properties
of it:

- `enums.dfy`: the registries (fuel types, prefectures, data types, data file
  types), the publication dates of each bulletin, and its file name and link,
  including the five renamed weekly bulletins.
- `calendar.dfy`, `dateformat.dfy`, `numbers.dfy`, `text.dfy`: Python's
  `datetime.date`, the ISO 8601 extended calendar form YYYY-MM-DD (section
  5.2.1.1 of ISO 8601:2004), the DD_MM_YYYY file-name form, `int()`,
  `decimal.Decimal` with `str()`, and the string methods the code uses.
- `parser.dfy`, `extract.dfy`: the bulletin parsers: price and station
  conversion, the rule for which fuel types a bulletin reports on a date, the
  prefecture column layout, and the token combination of the line-oriented
  extractor.
- `fetching.dfy`: the cache-or-download decision of the fetchers, link and
  file-name parsing, the date filters, and href clean-up.
- `storage.dfy`, `database.dfy`, `mongo.dfy`, `firebase.dfy`, `services.dfy`:
  storage as a map from data type to rows, with the replace-by-date update,
  data existence, date ranges and range queries. Also covered: the SQL text
  of the first version, the Mongo documents and queries, the Firestore
  document names, and the per-date and per-prefecture listings.
- `importing.dfy`, `graph.dfy`, `arguments.dfy`: the `import` and `graph`
  commands and the importer.
- `api.dfy`, `accounts.dfy`: the date window of the HTTP endpoints, the
  listings, the per-date results, and the password check.
- `options.dfy`, `grouping.dfy`, `sorting.dfy`, `assignments.dfy`: `None` and
  exceptions as values, `itertools.groupby`, and runs of dictionary assignments.

The model takes several things as parameters:

- the current day;
- `MAX_DAYS`, which the settings do not define;
- the regular expressions that find labels and values in PDF text;
- downloads and stored files;
- the password hash verifier.

## Model

| member | source | states |
|---|---|---|
| Accounts.FindUser | fuelpricesgr/storage/sql_alchemy.py:296-302 | no user is found exactly when no user's e-mail matches under the column's collation (byte for byte, or NOCASE folding ASCII letters); otherwise the found user is the first one that matches |
| Accounts.FindUserNoCase | fuelpricesgr/services/sql.py:85 | under the NOCASE column an e-mail differing only in letter case finds the user, and compared byte for byte it does not |
| Accounts.Authenticate | fuelpricesgr/storage/sql_alchemy.py:279-294 | with e-mails unique under the collation, as the unique column at line 109 keeps them, true exactly when some user's e-mail matches and the password verifies against that user's stored hash |
| Accounts.AuthenticateAsWritten | fuelpricesgr/services/sql.py:368-381 | the older check never returns true; it returns None, which is falsy, exactly when the first user matching the e-mail under NOCASE has a hash the password verifies against, and false otherwise |
| Accounts.AuthenticateAsWrittenRejectsAll | fuelpricesgr/services/sql.py:368-381 | the older check is never truthy; when the e-mails are unique ignoring ASCII case, it returns None exactly when the corrected check under NOCASE admits the user |
| Accounts.AuthenticateCounterexample | fuelpricesgr/services/sql.py:368-381 | one user with the right password is refused by the older check and admitted by the corrected one |
| Arguments.ParseNames | fuelpricesgr/commands/import.py:24-36 | empty text gives None; otherwise the result is a list exactly when every comma-separated part of the upper-cased text names a member, the i-th element being the member named by the i-th part; any other text fails with ArgumentTypeError |
| Arguments.ParseNamesRoundTrip | fuelpricesgr/commands/import.py:30-32 | member names joined with commas parse back to the same members, in order |
| Arguments.ParseNamesCaseInsensitive | fuelpricesgr/commands/import.py:32 | the letter case of the argument does not change the result |
| Enums.FuelTypeFromName | fuelpricesgr/enums.py:16-24 | `FuelType[name]` gives a member whose value is the name, or KeyError |
| Enums.FuelTypeOrder | fuelpricesgr/enums.py:19-24 | the six fuel types are declared once each, at their positions |
| Enums.FuelTypeNameRoundTrip | fuelpricesgr/enums.py:19-24 | looking a fuel type up by its value gives back that fuel type |
| Enums.FuelTypeNamesDistinct | fuelpricesgr/enums.py:19-24 | two fuel types with the same value are the same fuel type |
| Enums.PrefectureFromName | fuelpricesgr/enums.py:39-92 | `Prefecture[name]` gives a member whose value is the name, or KeyError |
| Enums.PrefectureOrder | fuelpricesgr/enums.py:42-92 | the 51 prefectures are declared once each, at their positions |
| Enums.PrefectureNameRoundTrip | fuelpricesgr/enums.py:42-92 | looking a prefecture up by its value gives back that prefecture |
| Enums.PrefectureNamesDistinct | fuelpricesgr/enums.py:42-92 | two prefectures with the same value are the same prefecture |
| Enums.DataTypes | fuelpricesgr/enums.py:119-126 | each data file type holds a non-empty list of distinct data types |
| Enums.DataTypesPartition | fuelpricesgr/enums.py:119-126 | every data type belongs to exactly one data file type |
| Enums.Prefix | fuelpricesgr/enums.py:119-126 | file prefixes are non-empty and made of upper-case letters and underscores |
| Enums.DataFileTypeFromName | fuelpricesgr/enums.py:116-126 | `DataFileType[name]` gives a member whose name is the text, or KeyError |
| Enums.DataFileTypeNameRoundTrip | fuelpricesgr/enums.py:116-126 | looking a data file type up by its name gives it back |
| Enums.DatesWithin | fuelpricesgr/enums.py:147-158 | every yielded date lies between start and end and is a publication date (any day, or a Friday for the weekly file) |
| Enums.DatesComplete | fuelpricesgr/enums.py:147-158 | every publication date between start and end is yielded |
| Enums.DatesIncreasing | fuelpricesgr/enums.py:147-158 | the yielded dates strictly increase |
| Enums.DatesEmpty | fuelpricesgr/enums.py:154-158 | nothing is yielded exactly when no day of the range is a publication date |
| Enums.DailyDatesCount | fuelpricesgr/enums.py:154-158 | a daily file type yields one date per day of a non-empty range |
| Enums.DatesSingle | fuelpricesgr/enums.py:154-158 | a range of one publication date yields that date alone, and the step past it overflows exactly when that date is 9999-12-31 |
| Enums.DatesOverflow | fuelpricesgr/enums.py:154-158 | after yielding its dates, the generator raises `OverflowError` exactly when the range is not empty and ends on 9999-12-31, the last representable day |
| Enums.NamedFileInjective | fuelpricesgr/enums.py:174 | the date written in a file name is determined by the name |
| Enums.FileNameRenamed | fuelpricesgr/enums.py:168-187 | the file name differs from PREFIX_DD_MM_YYYY.pdf exactly for the five special weekly dates |
| Enums.RenamedFridays | fuelpricesgr/enums.py:175-185 | each special weekly date is a Friday, and its file is named after a non-Friday date except on 2018-01-05, which keeps its date |
| Enums.NoSlashInFileName | fuelpricesgr/enums.py:168-187 | no file name contains '/' |
| Enums.LinkFileName | fuelpricesgr/enums.py:160-166 | the last '/' of a link ends the fixed base URL, and the file name follows it |
| Storage.GetModel | fuelpricesgr/storage/sql_alchemy.py:312-328 | the model of a data type is the table named by the data type's value |
| Storage.GetModelBijective | fuelpricesgr/storage/sql_alchemy.py:312-328 | every model is the model of exactly one data type |
| Storage.HasDateRecords | fuelpricesgr/storage/sql_alchemy.py:233-240 | a date exists in a table exactly when the table holds records for it |
| Storage.ReplaceDateRecords | fuelpricesgr/storage/sql_alchemy.py:249-257 | after deleting the rows of a date and adding the given ones, the table holds exactly the given rows for that date and is unchanged for every other date |
| Storage.ReplaceDateIdempotent | fuelpricesgr/storage/sql_alchemy.py:249-257 | replacing the rows of a date twice with the same rows is the same as doing it once |
| Storage.UpdateData | fuelpricesgr/storage/sql_alchemy.py:242-257 | the updated data type holds exactly the given rows for the date; its other dates and every other data type are unchanged; rows of the right kind keep the store well-kinded |
| Storage.DataExistsAfterUpdate | fuelpricesgr/storage/sql_alchemy.py:233-257 | after an update, the updated date and data type have data exactly when rows were given; every other date and data type has data exactly as before |
| Storage.MinDate | fuelpricesgr/storage/sql_alchemy.py:163-165 | `min(date)` is None exactly for an empty table; otherwise it is a stored date no later than any other |
| Storage.MaxDate | fuelpricesgr/storage/sql_alchemy.py:163-165 | `max(date)` is None exactly for an empty table; otherwise it is a stored date no earlier than any other |
| Storage.DateRange | fuelpricesgr/storage/sql_alchemy.py:157-167 | both ends are None exactly when the data type has no data; otherwise both are dates with data, and every date with data lies between them |
| Storage.RangeQuery | fuelpricesgr/storage/sql_alchemy.py:201-214 | the rows of a range query are ordered by date |
| Storage.RangeQueryMembers | fuelpricesgr/storage/sql_alchemy.py:216-231 | a row is returned exactly when it is stored, lies within the inclusive range and belongs to the asked prefecture, if any |
| Storage.RangeQueryDescending | fuelpricesgr/storage/sql_alchemy.py:210-214 | a descending query returns the latest rows first |
| Storage.RangeQueryInclusive | fuelpricesgr/storage/sql_alchemy.py:211-212 | the rows of the first and of the last day of the range are returned |
| Database.TableForDataType | fuelpricesgr/database.py:426-443 | each data type's table is named by the data type's value |
| Database.TableForDataTypeBijective | fuelpricesgr/database.py:426-443 | different data types have different tables, and the four table names are exactly the names of a data type |
| Database.DateRestriction | fuelpricesgr/database.py:445-466 | the restriction is empty exactly when neither bound is given; each bound is a parameter exactly when given, with its value, and no other parameter appears |
| Database.RestrictionRoundTrip | fuelpricesgr/database.py:454-466 | the bounds are read back from the restriction text and parameters: the restriction determines which bounds were given and their values |
| Database.RangeQueryShape | fuelpricesgr/database.py:276-285 | the query starts with the select, ends with ORDER BY date, and carries the WHERE or AND connector right after the select exactly when a bound is given |
| Database.DataExistsAll | fuelpricesgr/database.py:103-129 | data exists for a date exactly when every listed data type has a row of that date |
| Database.StationsParam | fuelpricesgr/database.py:177 | the stations parameter is NULL exactly when the number is missing or zero, and the number otherwise |
| Database.PriceParam | fuelpricesgr/database.py:178 | the price parameter is NULL exactly when the price is missing or zero; otherwise its text reads back as the price |
| Database.Upsert | fuelpricesgr/database.py:170-173 | the conflicting row of (date, fuel type) is replaced by the new one, and every other row is kept |
| Database.InsertDailyCountry | fuelpricesgr/database.py:160-179 | with NOT NULL columns, the insert fails with IntegrityError exactly when the stations are missing or zero or the price is missing or zero; otherwise it upserts the row |
| Database.InsertRefusesUnknownStations | fuelpricesgr/database.py:42-43 | a country row the extractor keeps (a price but no number of stations) is refused by the insert |
| Database.InsertDailyCountryNullable | fuelpricesgr/database.py:170-179 | with nullable columns, the row of (date, fuel type) holds the stations when given and non-zero and NULL otherwise, a NULL price exactly for a missing or zero price, and every other row is kept |
| Database.StationsReadBack | fuelpricesgr/database.py:397-405 | reading the stations back gives the stored parameter, and a given non-zero number reads back as itself |
| Records.RecordRow | fuelpricesgr/parser.py:174-178 | a country row has exactly the fields fuel_type, number_of_stations and price; a prefecture row exactly prefecture, fuel_type and price |
| Records.RecordRowRoundTrip | fuelpricesgr/services/storage/sql.py:320-324 | a record written as a row dictionary is read back as the same record |
| Records.RowRecordReadsFields | fuelpricesgr/services/storage/sql.py:320-324 | reading a row looks at its four known fields only |
| Grouping.GroupBy | fuelpricesgr/services/storage/sql.py:177-182 | `itertools.groupby`: every group is non-empty and all its items have the group's key; the first group has the key of the first item |
| Grouping.FlattenGroupBy | fuelpricesgr/services/storage/sql.py:177-182 | the groups, put back together, are the input in its order |
| Grouping.GroupByMaximal | fuelpricesgr/services/storage/sql.py:177-182 | neighbouring groups have different keys |
| Grouping.GroupByUnique | fuelpricesgr/services/storage/sql.py:177-182 | any keyed grouping of the input whose neighbours differ is the one `groupby` returns |
| Grouping.GroupByIncreasing | fuelpricesgr/services/storage/sql.py:177-182 | input ordered by a rank that tells keys apart gives groups of strictly increasing rank, so each key has one group |
| Grouping.GroupByKeys | fuelpricesgr/services/storage/sql.py:177-182 | a key has a group exactly when some item has that key |
| Grouping.GroupByMembers | fuelpricesgr/services/storage/sql.py:177-182 | on ranked input, a group holds exactly the items of the input with its key |
| Services.DateListed | fuelpricesgr/services/storage/sql.py:166-183 | a date is listed exactly when a stored row of that date is selected |
| Services.DateRecordsListed | fuelpricesgr/services/storage/sql.py:166-183 | the records listed for a date are exactly the selected stored records of that date |
| Services.GroupedQueryReports | fuelpricesgr/services/storage/sql.py:166-183 | an ascending range query grouped by date lists increasing dates, each with its bulletin's link and at least one record, and lists exactly the selected rows |
| Services.DailyCountryData | fuelpricesgr/services/storage/sql.py:159-183 | the daily country listing reports the daily country rows of the range, linked to the daily country bulletin |
| Services.DailyPrefectureData | fuelpricesgr/services/storage/sql.py:185-212 | the daily prefecture listing reports the prefecture's rows of the range, linked to the daily prefecture bulletin |
| Services.WeeklyCountryData | fuelpricesgr/services/storage/sql.py:214-238 | the weekly country listing reports the weekly country rows of the range, linked to the weekly bulletin |
| Services.WeeklyPrefectureData | fuelpricesgr/services/storage/sql.py:240-267 | the weekly prefecture listing reports the prefecture's rows of the range, linked to the weekly bulletin |
| Services.PrefectureRowsMembers | fuelpricesgr/services/storage/sql.py:286-287 | the ordered prefecture rows of a date are exactly its stored prefecture records, each paired with its own prefecture |
| Services.CountryData | fuelpricesgr/services/storage/sql.py:269-298 | prefectures come in the database's order; a prefecture is listed exactly when it has rows of the date, with exactly its records; the country part holds exactly the daily country records of the date |
| Services.PrefectureListed | fuelpricesgr/services/storage/sql.py:276-290 | a prefecture is listed exactly when it has rows of the date |
| Services.PrefectureRecordsListed | fuelpricesgr/services/storage/sql.py:276-290 | the records listed for a prefecture are exactly its stored records of the date |
| Services.MinDateOfFile | fuelpricesgr/services/sql.py:303-318 | None exactly when no data type of the file has data; otherwise the latest date of some data type, no later than the latest date of any data type with data |
| Services.EarliestPresent | fuelpricesgr/services/sql.py:313-318 | None exactly when no date is present; otherwise a present date no later than any other |
| Services.FileDataExistsAfterUpdate | fuelpricesgr/services/storage/sql.py:300-326 | after updating one data type of a file, the file's data exists exactly when rows were given and every other data type of the file already had data of the date |
| Parser.ParseNumberOfStations | fuelpricesgr/parser.py:79-89 | no number exactly when the group is missing or empty; otherwise the text converts or `int()` raises `ValueError` |
| Parser.StationsWithSeparator | fuelpricesgr/parser.py:86-87 | a stations count written with a '.' thousands separator, such as "1.234", reads as the number of its digits, 1234 |
| Parser.StationsOfNat | fuelpricesgr/parser.py:86-87 | a count written in decimal without separator reads back as the same number |
| Parser.CleanPrice | fuelpricesgr/parser.py:98 | the cleaned price text holds no dash, no space and no comma |
| Parser.ParsePrice | fuelpricesgr/parser.py:91-102 | no price exactly when nothing is left after cleaning; otherwise a non-negative finite decimal, or `InvalidOperation` from `decimal.Decimal`, also for the special values it would accept |
| Parser.PriceWithComma | fuelpricesgr/parser.py:98-100 | a price written with a decimal comma, such as "1,234", reads as the decimal 1.234 with as many places as digits after the comma |
| Parser.CleanDigitsComma | fuelpricesgr/parser.py:98 | cleaning digits around a comma gives the same digits around a point |
| Parser.CleanSeparated | fuelpricesgr/parser.py:98 | text that is digits, a comma or point, and digits once its spaces are removed cleans to the digits around a point |
| Parser.DashIsNoPrice | fuelpricesgr/parser.py:98-102 | the dash that marks a missing price gives no price rather than an error |
| Parser.SuperExpected | fuelpricesgr/parser.py:112-114 | SUPER is expected exactly on the days strictly before 5 August 2022, in calendar order |
| Parser.GasExpected | fuelpricesgr/parser.py:115-117 | GAS is expected exactly on the days strictly after 1 June 2012, in calendar order |
| Parser.HeatingSeason | fuelpricesgr/parser.py:118-123 | DIESEL_HEATING is expected in January to April, never in May to September, and in October to December only from the 15th day of the month |
| Parser.HeatingGaps | fuelpricesgr/parser.py:118-123 | in any year 1 November and 14 December give no DIESEL_HEATING, although they fall inside the heating season |
| Parser.AlwaysExpected | fuelpricesgr/parser.py:105-125 | both unleaded grades and DIESEL are expected on every date |
| Parser.StationsShapeParses | fuelpricesgr/parser.py:153-158 | any text of the shape the stations group captures converts to a number |
| Parser.PriceShapeParses | fuelpricesgr/parser.py:153-158 | any text of the shape the price group captures converts to a price, never to no price |
| Parser.CountryRecordFor | fuelpricesgr/parser.py:172-178 | a record exists for a fuel type exactly when its search matched, and it carries that fuel type |
| Parser.ShapedGroupsConvert | fuelpricesgr/parser.py:173-178 | when the matched groups have the captured shapes, building the fuel type's record cannot fail |
| Parser.CountryRecords | fuelpricesgr/parser.py:170-183 | at most one country record per fuel type visited |
| Parser.CountryRecordsShaped | fuelpricesgr/parser.py:170-183 | when every matched group has the captured shapes, no conversion fails for the whole list |
| Parser.CountryRecordsFuelTypes | fuelpricesgr/parser.py:170-183 | the records' fuel types are the matched fuel types, in the order visited |
| Parser.CountryData | fuelpricesgr/parser.py:161-183 | at most six records, all of them country records |
| Parser.CountryDataOrder | fuelpricesgr/parser.py:171-178 | records come in strictly increasing fuel-type declaration order |
| Parser.CountryDataMatched | fuelpricesgr/parser.py:171-178 | a fuel type has a record exactly when its search matched |
| Parser.MatchedOrder | fuelpricesgr/parser.py:171-173 | keeping only the matched fuel types of an ascending list keeps it ascending and within the list |
| Parser.MatchedMembers | fuelpricesgr/parser.py:171-173 | a fuel type is kept exactly when it is in the list and its search matched |
| Parser.ColumnFuelTypes | fuelpricesgr/parser.py:257-271 | the columns hold SUPER exactly when the text mentions "Super" and DIESEL_HEATING exactly when it should exist on the date; they start with the two unleaded grades and repeat no fuel type |
| Parser.ColumnPatterns | fuelpricesgr/parser.py:260-270 | one price pattern per column |
| Parser.ColumnsAligned | fuelpricesgr/parser.py:266-271 | without a heating column, or after 31 May 2020, every column is read with the pattern written for its own fuel type |
| Parser.ColumnsCrossed | fuelpricesgr/parser.py:266-271 | up to 31 May 2020 in the heating season the heating pattern is inserted before the GAS pattern while DIESEL_HEATING is appended after GAS, so the last two columns are read with each other's patterns |
| Parser.ParseCells | fuelpricesgr/parser.py:278-279 | the cell prices are the conversions of the cells in order, or the error of some cell's conversion |
| Parser.ParseCellsFails | fuelpricesgr/parser.py:278-279 | the row fails exactly when some cell fails to convert, and then with `InvalidOperation` |
| Parser.RowRecords | fuelpricesgr/parser.py:278-285 | every record of a row is a prefecture record of that prefecture with a truthy price and one of the column fuel types |
| Parser.RowRecordsCells | fuelpricesgr/parser.py:278-285 | a row yields the record of a column exactly when that column's price is truthy |
| Parser.PrefectureRecords | fuelpricesgr/parser.py:273-290 | every record belongs to a visited prefecture whose row search matched, has a truthy price and a column fuel type |
| Parser.PrefectureRow | fuelpricesgr/parser.py:274-287 | a prefecture whose row search fails gives no records; otherwise every record is of that prefecture, with a truthy price and a column fuel type |
| Parser.PrefectureRowCells | fuelpricesgr/parser.py:276-285 | a matched row gives a record exactly when one of its columns yields it: the column's cell converts to a truthy price, and the record carries the prefecture, the column's fuel type and that price |
| Parser.PrefectureRecordsComplete | fuelpricesgr/parser.py:273-290 | the records of a successful run are exactly those that some column of some visited prefecture yields |
| Parser.PrefectureRecordsOrdered | fuelpricesgr/parser.py:273-290 | the records of a successful run come in the order of the visited prefectures |
| Parser.PrefectureData | fuelpricesgr/parser.py:247-290 | every record is a prefecture record with a truthy price and one of the column fuel types for the text and date |
| Parser.PrefectureDataComplete | fuelpricesgr/parser.py:247-290 | the records are exactly those that some column of some prefecture yields with the columns chosen for the text and date, listed in the prefectures' declaration order |
| Parser.WeeklyExtract | fuelpricesgr/parser.py:296-332 | the result holds exactly the weekly country and weekly prefecture data; a missing end marker leaves that part empty; a prefecture marker without a country marker raises `AttributeError` |
| Parser.ParserDataTypes | fuelpricesgr/parser.py:25-37 | the parser chosen for a file type extracts exactly that file type's data types |
| Parser.Parse | fuelpricesgr/parser.py:60-77 | a file name without a date gives no data; a matched name whose numbers name no day raises `ValueError`; data comes only from non-empty text; any other error comes from the extraction |
| Parser.ParseStoredFile | fuelpricesgr/parser.py:66-75 | a non-empty bulletin stored under its date's ISO file name is parsed as that date's bulletin, with the same result as extracting it directly |
| Extract.MatchLabel | fuelpricesgr/extract.py:38-51 | no label matches exactly when every fuel type's label fails on the line; otherwise the result is the first fuel type, in the order tried, whose label matches |
| Extract.CombineTokens | fuelpricesgr/extract.py:55-73 | a line's tokens combine exactly when there are two or four of them, or three with a comma in the second or a point in the first; the two texts are the tokens in order, the stations taken from the front and the price from the back |
| Extract.StationsValue | fuelpricesgr/extract.py:76-78 | no number exactly for a dash; any other text converts or raises `ValueError` |
| Extract.PriceValue | fuelpricesgr/extract.py:79-81 | no price exactly for a dash or the division-by-zero mark; any other text converts to a finite decimal or raises `InvalidOperation`, also for the special values `decimal.Decimal` would accept |
| Extract.LineTokens | fuelpricesgr/extract.py:35-73 | tokens are only produced for a line whose collapsed text starts with a label, and they carry that label's fuel type |
| Extract.TokensAfter | fuelpricesgr/extract.py:53-54 | the tokens after a label carry the label's fuel type |
| Extract.LineRecord | fuelpricesgr/extract.py:35-87 | a line yields a record exactly when it starts with a label, its tokens combine, the stations and the price convert and the pair is worth keeping; the record carries the label's fuel type and exactly those converted stations and price |
| Extract.ExtractLines | fuelpricesgr/extract.py:35-89 | at most one record per line |
| Extract.DailyCountryData | fuelpricesgr/extract.py:27-89 | at most one record per line of the text |
| Extract.ExtractLinesConcat | fuelpricesgr/extract.py:35 | lines are handled independently: the records of two blocks of lines are the records of the first followed by those of the second |
| Extract.ExtractLinesMembers | fuelpricesgr/extract.py:35-89 | a record is extracted exactly when some line yields it |
| Extract.ExtractLinesKept | fuelpricesgr/extract.py:35-89 | every extracted record is a country record worth keeping |
| Extract.RenderedLine | fuelpricesgr/extract.py:53-85 | a line "label stations price", with a non-zero count and a decimal-comma price, yields the record of that fuel type with that count and price |
| Extract.LineOfTwoTokens | fuelpricesgr/extract.py:53-57 | when two words follow the label they become the stations and the price |
| Extract.CombineTwo | fuelpricesgr/extract.py:55-57 | two tokens are the stations and the price, unchanged |
| Extract.TwoTokens | fuelpricesgr/extract.py:53-54 | the text after a label and a space, holding two space-free words, splits into exactly those words |
| Extract.PriceOfComma | fuelpricesgr/extract.py:80-81 | a price written with a decimal comma reads as the decimal with as many places as digits after the comma |
| Extract.ZeroWithoutPriceDropped | fuelpricesgr/extract.py:82-85 | a zero stations count without a price yields no record |
| Extract.StationsOfDigits | fuelpricesgr/extract.py:77-78 | digits without separator read as the number they spell |
| Extract.DailyPrefectureData | fuelpricesgr/extract.py:92-132 | the labels are all found exactly when each of the five labels is found in the text, and no records are returned either way |
| Fetching.CachePathParts | fuelpricesgr/fetcher/base.py:46-51 | a stored file's path is the data file type's directory, a '/', and a file name that the parser's file-name pattern reads back as the same date |
| Fetching.CachePathInjective | fuelpricesgr/fetcher/base.py:46-51 | two files of different type or date never share a path |
| Fetching.DataSource | fuelpricesgr/fetcher/base.py:25-44 | the stored file is read exactly when it exists and the cache is not skipped; it is fetched exactly when it is missing or the cache is skipped |
| Fetching.FetcherData | fuelpricesgr/fetcher/base.py:25-44 | a read returns the stored file and changes nothing; a fetch returns the download and stores it under the file's path when it succeeded |
| Fetching.FetcherDataCaches | fuelpricesgr/fetcher/base.py:25-44 | once a file has been obtained, asking again without skipping the cache returns the same content with no download, and no other stored file changes |
| Fetching.FileNameOf | fuelpricesgr/fetch.py:72 | the file name is the link's tail after its last '/', holds no '/', and is the whole link when the link has no '/' |
| Fetching.NameDate | fuelpricesgr/fetch.py:73-77 | no date exactly when no DD_MM_YYYY occurs in the file name; a first occurrence that names no day raises `ValueError` |
| Fetching.LinkDateRoundTrip | fuelpricesgr/fetch.py:72-77 | the link of a bulletin is read back as the date its file name carries: the bulletin's own date, except for weekly bulletins published under another Friday's name |
| Fetching.PassesAsWrittenSwapped | fuelpricesgr/fetch.py:78-81 | the filter as written lets a date through exactly when it lies in the window with start and end swapped |
| Fetching.PassesAsWrittenDropsWindow | fuelpricesgr/fetch.py:78-81 | when the start date precedes the end date, the filter as written lets no date through |
| Fetching.PassesAsWrittenCounterexample | fuelpricesgr/fetch.py:78-81 | 15 January 2020 lies in the window from 1 to 31 January 2020 and is dropped by the filter as written |
| Fetching.ProcessLinkWith | fuelpricesgr/fetch.py:72-112 | a link is skipped exactly when its name has no date; it raises exactly when its name's date is invalid, with that `ValueError`, or when its date passes the filter and getting the file raises a `requests` error other than an HTTP status, with that error; every other outcome concerns the name's date |
| Fetching.ProcessLinkSteps | fuelpricesgr/fetch.py:78-112 | for a link naming a date: filtered exactly when the filter rejects it; skipped exactly when it passes and the download fails with an HTTP error; raises exactly when it passes and the download fails otherwise; inserted exactly when it passes, the file is obtained and `update` is set or no data exists; kept exactly when the file is obtained, `update` is not set and data exists |
| Fetching.ProcessLinkAsWrittenFilters | fuelpricesgr/fetch.py:78-81 | with the filter as written, a bulletin link is filtered out whenever the start date precedes the end date |
| Fetching.ProcessLinkInserts | fuelpricesgr/fetch.py:78-112 | with the inclusive window, a bulletin link is inserted exactly when its date is in the window, its file is obtained and `update` is set or the date has no data; it is filtered exactly when its date is outside the window; it is skipped after an HTTP error exactly when its date is inside and the download fails with one |
| Fetching.DropQuestionMarks | fuelpricesgr/fetch.py:137 | the result is the text with its leading run of '?' removed, and nothing else |
| Fetching.CleanHref | fuelpricesgr/fetch.py:134-137 | an href is kept exactly when it starts with "./files", and the kept href has no spaces and is no longer than before |
| Fetching.RemoveParenDigitsSift | fuelpricesgr/fetch.py:136 | removing "(d)" groups removes only parentheses and digits; every other character stays, in order |
| Fetching.RemoveDashQuestionsSift | fuelpricesgr/fetch.py:137 | removing "-?" runs removes only dashes and question marks; every other character stays, in order |
| Fetching.CleanHrefPlain | fuelpricesgr/fetch.py:134-137 | an href under "./files" without spaces, parentheses or dashes is left unchanged |
| Fetching.CleanHrefOfBulletin | fuelpricesgr/fetch.py:134-137 | the href of every published bulletin passes the clean-up unchanged |
| Fetching.UpperRun | fuelpricesgr/data.py:20 | the run of capitals and underscores at an index is maximal: it ends at the end of the text or before a character outside the class |
| Fetching.MatchLink | fuelpricesgr/data.py:19-21 | a matched link has a day of one or two digits, a month of two and a year of four |
| Fetching.MatchLinkSound | fuelpricesgr/data.py:19-21 | a match is a decomposition of the link into the directory, the prefix, day, month and year separated by underscores, and a tail the pattern accepts |
| Fetching.MatchLinkComplete | fuelpricesgr/data.py:19-21 | every such decomposition is the match, so the groups are determined by the link |
| Fetching.LinkDate | fuelpricesgr/data.py:62-63 | the groups give a date exactly when their numbers name a day of the calendar, and then that day; otherwise `ValueError` |
| Fetching.BulletinLinks | fuelpricesgr/data.py:56-66 | the link of every published bulletin matches, yields the date its name carries, and for a ".pdf" name the rebuilt download name is the file name itself |
| Fetching.ParseHref | fuelpricesgr/data.py:56-63 | a link is ignored exactly when it has no href, does not start with "./files" or does not match; it raises `ValueError` exactly when the matched date does not exist; otherwise it gives the groups and the date |
| Fetching.ParseHrefDated | fuelpricesgr/data.py:57-63 | a matching link whose date exists is read as that date |
| Fetching.FetchStep | fuelpricesgr/data.py:57-86 | a link step raises exactly for an invalid date and then changes nothing; a date is yielded only when it passes the window and its file is stored; it is yielded whenever it passes and is stored or downloads; no stored file is replaced |
| Fetching.FetchParsed | fuelpricesgr/data.py:56-86 | an error raised by the run is the error of one of its links, and every yielded date is marked as downloaded by the run or not |
| Fetching.FetchParsedSound | fuelpricesgr/data.py:56-86 | every date yielded passes the filter and has its file stored at the end |
| Fetching.FetchParsedFresh | fuelpricesgr/data.py:68-86 | a date yielded by a run whose file was not stored when it began is yielded, at its first occurrence, as downloaded by the run |
| Fetching.FetchParsedKeeps | fuelpricesgr/data.py:68-84 | no file stored before the run is replaced |
| Fetching.FetchParsedDated | fuelpricesgr/data.py:56-86 | when the run does not raise, a link dated in the window is yielded whenever its file is stored or downloads |
| Fetching.FetchData | fuelpricesgr/data.py:36-86 | the only error the run can raise is `ValueError` |
| Fetching.YieldedAsWritten | fuelpricesgr/data.py:83-86 | as written, each date is yielded with its cache path, except a date the run downloaded, which comes with the closed writer that `with file.open('wb') as file` rebinds `file` to |
| Fetching.FetchDataYieldsWriter | fuelpricesgr/data.py:68-86 | a matching link dated in the window whose file is not stored and downloads is yielded, as written, with a closed writer and not with its cache path |
| Fetching.FetchDataSound | fuelpricesgr/data.py:64-86 | every date `fetch_data` yields lies in the inclusive window and its file is in the cache directory |
| Fetching.FetchDataKeeps | fuelpricesgr/data.py:68-84 | `fetch_data` replaces no file stored before |
| Fetching.FetchDataMatched | fuelpricesgr/data.py:56-86 | corrected yield: when the run does not raise, every matching link dated in the window whose file is stored or downloads is yielded with its cache path, also when the run downloaded it |
| Fetching.FetchDataNamed | fuelpricesgr/data.py:56-86 | corrected yield: when the run does not raise, the link of a bulletin named for a date in the window is yielded with its cache path whenever its file is stored or downloads |
| Firebase.CollectionName | fuelpricesgr/services/storage/firebase.py:68-80 | each data type's collection is named by the data type's value, and no two data types share a collection |
| Firebase.DocumentNameParts | fuelpricesgr/storage/firebase.py:96-109 | a document name is the ten-character ISO date, '_', and the fuel type's value followed, for a prefecture, by '_' and its value |
| Firebase.SplitKeyRoundTrip | fuelpricesgr/storage/firebase.py:105-107 | the part of a document name after the date gives back the fuel type and prefecture it was made of, although DIESEL's value is a prefix of DIESEL_HEATING's |
| Firebase.HeatingIsNoPrefecture | fuelpricesgr/storage/firebase.py:105-107 | what follows `DIESEL_` in a DIESEL_HEATING name is no prefecture's value, so the name is not read as DIESEL |
| Firebase.DocumentNameInjective | fuelpricesgr/storage/firebase.py:96-109 | two document names are equal exactly when their dates, fuel types and prefectures are equal |
| Firebase.RowDocumentName | fuelpricesgr/services/storage/firebase.py:82-88 | a row without a fuel type raises `KeyError`; naming fails only when the fuel type or the prefecture is missing or is not text |
| Firebase.RowDocumentNameOfRecord | fuelpricesgr/services/storage/firebase.py:82-88 | the name read from a record's row is the document name of the record's date, fuel type and prefecture |
| Firebase.ToDocument | fuelpricesgr/services/storage/firebase.py:51-53 | the document has the row's fields plus `date`, which is the ISO date unless the row sets it, and every row value with Decimals written as text |
| Firebase.KeyedUpdateNamed | fuelpricesgr/services/storage/firebase.py:47-54 | when every row can be named, the update never fails and is the run of the rows' writes in row order |
| Firebase.KeyedUpdateRecords | fuelpricesgr/services/storage/firebase.py:47-54 | storing parsed records never fails and is the run of their writes |
| Firebase.KeyedUpdateLastWins | fuelpricesgr/services/storage/firebase.py:50-54 | after the update the collection holds its old documents plus one per record name; a record whose name no later record shares is stored as its document; every other document is unchanged |
| Firebase.KeyedUpdateIdempotent | fuelpricesgr/services/storage/firebase.py:50-54 | storing the same records a second time leaves the collection as one update left it |
| Firebase.LastWriteWins | fuelpricesgr/services/storage/firebase.py:50-54 | two DIESEL records on one date end as a single document, holding the later record |
| Firebase.AutoIdUpdate | fuelpricesgr/storage/firebase.py:50-63 | with no rows nothing happens; with rows, no document is added and an exception is raised |
| Firebase.AutoIdUpdateStoresNothing | fuelpricesgr/storage/firebase.py:58-63 | the earlier update stores nothing for a record's row and raises `AttributeError`, while the later one stores the record under its name |
| Firebase.ToDocumentRecord | fuelpricesgr/services/storage/firebase.py:51-53 | a stored record's document carries the ISO date, and its text price reads back as the record's price |
| Firebase.ToDocumentReadsBack | fuelpricesgr/services/storage/firebase.py:51-53 | with its price read back, a stored record's document reads as the same record |
| Firebase.PriceRestored | fuelpricesgr/services/storage/firebase.py:51-53 | when the price is the only Decimal of a row, restoring it in the document gives back every field of the row |
| Mongo.IndexFields | fuelpricesgr/storage/mongo.py:28-31 | every index starts with `date` and ends with `fuel_type`, and has `prefecture` between them exactly for the prefecture data types |
| Mongo.PrefectureSuffix | fuelpricesgr/storage/mongo.py:29 | exactly the two prefecture data types have values ending in "_prefecture" |
| Mongo.IndexFieldsMatchRows | fuelpricesgr/storage/mongo.py:26-31 | every indexed field other than `date` is a field that the rows of the data type carry |
| Mongo.AtMidnight | fuelpricesgr/storage/mongo.py:228-235 | the datetime is on the date and is the earliest moment of that date |
| Mongo.AtDayEnd | fuelpricesgr/storage/mongo.py:95 | the datetime is on the date and is the latest moment of that date |
| Mongo.RangeFilter | fuelpricesgr/storage/mongo.py:141-151 | the query constrains the prefecture exactly when one is given, and the date exactly when a start or an end is given, with a lower bound exactly for a start and an upper bound exactly for an end |
| Mongo.RangeFilterMatches | fuelpricesgr/storage/mongo.py:141-151 | a document stamped with a date is found exactly when it has the given prefecture and its date lies within the given bounds, both included |
| Mongo.Stringify | fuelpricesgr/storage/mongo.py:174 | a Decimal becomes its text and every other value is kept |
| Mongo.ToDocument | fuelpricesgr/storage/mongo.py:173-177 | the document has the row's fields plus `date`, which is midnight of the date whatever the row held, and every other value stringified |
| Mongo.ReadPriceStringify | fuelpricesgr/storage/mongo.py:174 | every price a row may hold, a Decimal or None, reads back from its stored form |
| Mongo.DocumentRoundTrip | fuelpricesgr/storage/mongo.py:173-177 | a record stored as a document reads back as the same record on the same date |
| Mongo.DocumentRestored | fuelpricesgr/storage/mongo.py:173-177 | restoring a record's price in its document gives the record's row with the date added |
| Mongo.PriceRestored | fuelpricesgr/storage/mongo.py:174 | when the price is a row's only Decimal, restoring it undoes the stringification |
| Mongo.DeleteDate | fuelpricesgr/storage/mongo.py:172 | no document of the date is left |
| Mongo.DeleteDateDocuments | fuelpricesgr/storage/mongo.py:172 | deleting the documents of a date keeps the documents of every other date as they were |
| Mongo.UpdateDataReplaces | fuelpricesgr/storage/mongo.py:164-179 | after an update the documents of the date are exactly the rows' documents, in order, and those of every other date are kept as they were |
| Mongo.DataExistsOn | fuelpricesgr/storage/mongo.py:153-162 | data exists for a date exactly when some document is stamped with its midnight |
| Mongo.DataExistsAfterUpdate | fuelpricesgr/storage/mongo.py:153-179 | after an update, data exists for the date exactly when rows were given |
| Mongo.DateRange | fuelpricesgr/storage/mongo.py:70-83 | an empty collection has no range; a collection whose documents all lack a date raises `AttributeError`; otherwise the range is the `$min` and `$max` of the dates: each end is some document's date and together they bound every document's date |
| Importing.MinFileTypeDates | fuelpricesgr/commands/import.py:15-21 | the data types of one file share their first date, 27 April 2012 for the weekly bulletin and 14 March 2017 for the daily ones, and that date is itself a publication date of the file |
| Importing.ParseDataFileTypesMeaning | fuelpricesgr/commands/import.py:24-36 | an empty argument selects nothing; an unknown name raises `ArgumentTypeError`; otherwise the result names, in order, the upper-cased comma-separated parts |
| Importing.ParseDataFileTypesRoundTrip | fuelpricesgr/commands/import.py:24-36 | the names of data file types joined with commas, as the help text lists them, parse back to those file types |
| Importing.LatestOr | fuelpricesgr/commands/import.py:105-108 | with no stored data the fallback is used; otherwise the latest date that has data, the second element of a storage's range pair |
| Importing.FetchDateRange | fuelpricesgr/commands/import.py:90-113 | on a storage whose `date_range` is the pair (earliest, latest): a given start is kept; without one the range starts at the latest stored date, or at the data type's first bulletin date when nothing is stored; the end is the given end or today. It is also the corrected window for a storage returning a `models.DateRange`, read through `end_date` as importer.py:29-30 does |
| Importing.ImporterDateRange | fuelpricesgr/importer.py:12-37 | a given start is kept; without one the window starts at the `end_date` of the stored range, and when nothing is stored reading `data_type.min_date`, which `enums.DataType` does not define, raises `AttributeError`; the end is the given end or today |
| Importing.FetchDateRangeResumes | fuelpricesgr/importer.py:27-30 | without a start date the corrected command window and the importer's window resume from the latest stored date: no date of the range lies before any date that already has data |
| Importing.DataFileOf | fuelpricesgr/enums.py:116-126 | every data type is read from a file type that lists it |
| Importing.Write | fuelpricesgr/storage/sql_alchemy.py:242-257 | the write succeeds exactly when the rows are admissible: each fits the table's columns and fills its NOT NULL columns (lines 50, 64-65), and no two share the unique key of lines 44, 58, 73 and 90; a row of the wrong kind raises `TypeError`, any other refusal `IntegrityError`; on success the date holds exactly the rows and nothing else changes |
| Storage.AdmissibleMeaning | fuelpricesgr/storage/sql_alchemy.py:44-99 | rows are admissible exactly when each fits the table and fills its NOT NULL columns and no two share the unique key |
| Importing.WriteKeepsConstraints | fuelpricesgr/storage/sql_alchemy.py:242-257 | a successful write keeps every date of every table within the constraints |
| Importing.FetchWrite | fuelpricesgr/commands/import.py:81-82 | fetching and writing a date fails exactly when the fetch fails or its rows are not admissible; on success the date holds the fetched rows and nothing else changes |
| Importing.CallDataExists | fuelpricesgr/commands/import.py:80 | calling `data_exists(data_file_type=..., date=...)` answers exactly for a storage declared with the file type, whether every data type of the file has data; a storage declared with the data type raises `TypeError` |
| Importing.ImportDate | fuelpricesgr/commands/import.py:79-82 | without `--update`, a storage whose `data_exists` takes a data type raises `TypeError`; otherwise a date raises exactly when it is due, because `--update` is given or its file's data is missing, and the fetch or write fails; a due date that succeeds holds the fetched rows; a date not due is left alone; no other data type or date changes |
| Importing.ImportDates | fuelpricesgr/commands/import.py:79-82 | when the storage refuses the `data_exists` call, the store is unchanged and an error is reported exactly when there is a date; otherwise an error is reported only when the fetch or write of one of the dates fails |
| Importing.ImportDatesErrors | fuelpricesgr/commands/import.py:72-85 | over distinct dates an import reports an error exactly when the storage refuses the `data_exists` call and there is a date, or some date is due and its fetch or write fails |
| Importing.ImportDataType | fuelpricesgr/commands/import.py:76-82 | on a storage returning a `models.DateRange` and without `--start-date`, nothing changes and an error is always reported, from the `TypeError` of the first comparison in `dates()`; otherwise, when the storage refuses the `data_exists` call, nothing changes and an error is reported exactly when the fetch window has a publication date or ends on 9999-12-31; otherwise an error is reported only when the fetch or write of a date of the window fails or the window ends on 9999-12-31, and always in the latter case, from the `OverflowError` of `dates()` |
| Importing.ImportData | fuelpricesgr/commands/import.py:64-113 | on a storage returning a `models.DateRange` and without `--start-date`, `import_data` imports nothing and reports an error whenever a file type is selected; in every case it reports an error only when the start was unpacked from a `models.DateRange`, the storage refuses the `data_exists` call, some fetch or write fails, or the window ends on 9999-12-31 |
| Importing.ImportDataAsWritten | fuelpricesgr/commands/import.py:80 | without `--update`, on the SQLAlchemy storage the command opens, `import_data` imports nothing; without `--start-date` it reports an error whenever a file type is selected, and with one exactly when some selected data type has a date to visit or a window ending on 9999-12-31 |
| Importing.ImportWithoutStartFails | fuelpricesgr/commands/import.py:104-108 | on the SQLAlchemy storage, an import without `--start-date` reports an error and imports nothing, even with `--update` and fetches and writes that never fail |
| Importing.ImportDataWrites | fuelpricesgr/commands/import.py:73-82 | an import changes only the data types of the selected file types and, when both bounds are given, only dates within them |
| Importing.DatesOutside | fuelpricesgr/commands/import.py:79 | a date outside the range is not among the dates an import visits |
| Importing.ImportDataKeepsExisting | fuelpricesgr/commands/import.py:80 | without `--update`, the rows of a date whose file data exists before the import are the same after it |
| Importing.ImportDatesStops | fuelpricesgr/commands/import.py:72-85 | when an import over distinct dates reports an error, some date raised, because the storage refused the `data_exists` call or its fetch or write failed, and that date and every later one are left as they were |
| Importing.ImporterDate | fuelpricesgr/importer.py:61-69 | a date that is due and whose fetch succeeds with admissible rows (fitting, NOT NULL filled, unique keys distinct) holds the fetched rows; otherwise, including after a failure, the store is unchanged; no other data type or date changes |
| Importing.ImporterDatesFrame | fuelpricesgr/importer.py:61-69 | a pass changes only its own data type, and only the dates it visits |
| Importing.ImporterDatesContinue | fuelpricesgr/importer.py:61-69 | the importer goes on after a failure: with `update`, every date of a pass over distinct dates whose fetch succeeds with admissible rows ends up holding the fetched rows |
| Importing.ImporterKeepsExisting | fuelpricesgr/importer.py:40-90 | without `update` the importer never overwrites a data type's existing rows at a date, whether or not the run ends with an exception |
| Importing.ImporterDataTypes | fuelpricesgr/importer.py:55-61 | a run over the data types of a file ends with `AttributeError` only without a start date and at a data type with nothing stored, and with any other exception only with `OverflowError` from a window ending on 9999-12-31; with a start date and that end it always ends so, at the first data type |
| Importing.ImportFileTypeData | fuelpricesgr/importer.py:40-69 | the run stops at the first exception that escapes a file type: `AttributeError` only without a start date and with some data type that has nothing stored, `OverflowError` only for a window ending on 9999-12-31, which with a start date always ends the run |
| Importing.ImporterImportData | fuelpricesgr/importer.py:72-90 | `import_data` over the given or all file types ends with the exceptions `import_file_type_data` lets escape, under the same conditions |
| Importing.ImporterFreshStoreRaises | fuelpricesgr/importer.py:32 | on a store with nothing in it and without a start date, the importer raises `AttributeError` at its first window, before anything is fetched, and leaves the store empty |
| Graph.PlotIntoAgrees | fuelpricesgr/commands/graph.py:23-27 | filling the nested date-to-fuel-type dictionary row by row is the same as a run of assignments keyed by date and fuel type |
| Graph.PlotDataDates | fuelpricesgr/commands/graph.py:23-29 | the plot data has a date exactly when some row has that date |
| Graph.PlotDataLastWins | fuelpricesgr/commands/graph.py:26-27 | the plot data has a price for a date and fuel type exactly when some row has them, and it is the price of the last such row |
| Graph.FlatLastWins | fuelpricesgr/commands/graph.py:27 | after a run of assignments from an empty dictionary, a key is present exactly when it was assigned, with the value of its last assignment |
| Graph.PlotDataOverwrites | fuelpricesgr/commands/graph.py:27 | of two rows with the same date and fuel type, the later one's price is kept |
| Graph.Axis | fuelpricesgr/commands/graph.py:40-48 | the axis holds, in strictly increasing order, exactly the dates of the range that have plot data; stepping past the last representable day raises `OverflowError` |
| Graph.AppendDaysGet | fuelpricesgr/commands/graph.py:43-48 | after the loop, each fuel type's series gains, for every axis date, that date's price once for each time the fuel type is listed |
| Graph.PlotSeries | fuelpricesgr/commands/graph.py:40-48 | a fuel type's series has the axis length times the number of times it is listed; listed once, its value at each axis date is that date's price, or None when the date lacks it |
| Graph.PlotAsWrittenNotDrawable | fuelpricesgr/commands/graph.py:51-52 | with a non-empty axis, drawing every fuel type fails whenever some fuel type is not listed exactly once, as for any fuel type left out of `--types` |
| Graph.PlotAsWrittenCounterexample | fuelpricesgr/commands/graph.py:51-52 | `--types DIESEL` with one day of data gives a one-date axis and a plot that cannot be drawn |
| Graph.DrawnSeries | fuelpricesgr/commands/graph.py:51-52 | one series per distinct requested fuel type, in order, each being that fuel type's price series |
| Graph.Distinct | fuelpricesgr/commands/graph.py:45 | the requested fuel types with repetitions removed: the same members, none listed twice |
| Graph.DistinctPlotDrawable | fuelpricesgr/commands/graph.py:40-52 | drawing the distinct requested fuel types always works: every series has one value per axis date, that date's price |
| Graph.GetPlotDataDates | fuelpricesgr/commands/graph.py:14-29 | the plot data has exactly the dates of the range that have daily country rows in storage |
| Graph.ParseFuelTypesMeaning | fuelpricesgr/commands/graph.py:76-88 | an empty argument selects nothing; an unknown name raises `ArgumentTypeError`; otherwise the result names, in order, the upper-cased comma-separated parts |
| Graph.ParseFuelTypesRoundTrip | fuelpricesgr/commands/graph.py:64-66 | the fuel type names joined with commas, as the help text lists them, parse back to those fuel types |
| Graph.Defaults | fuelpricesgr/commands/graph.py:96-101 | the end defaults to today, the start to MAX_DAYS days before the end, or `OverflowError` when that is before the first representable day, and the fuel types to all of them; given values are kept |
| Api.FuelTypesListed | fuelpricesgr/views/api.py:32-37 | the listing has six entries, each fuel type at its declaration position with its name and description, and each listed name reads back as that fuel type |
| Api.PrefecturesListed | fuelpricesgr/views/api.py:46-51 | the listing has 51 entries, each prefecture at its declaration position with its name and description, each listed name reads back as that prefecture, and the first version's listing gives each prefecture its name as description too, as its enum value is its name |
| Api.GetDateRange | fuelpricesgr/views/api.py:186-207 | reversed bounds give a 400 and nothing else does; date arithmetic past the calendar raises `OverflowError`; otherwise the window is ordered and at most MAX_DAYS long, keeps a given end, ends today without bounds, keeps a given start when there is no end, never starts before a given start, and with both bounds is as long as they allow up to MAX_DAYS |
| Api.WindowBefore | fuelpricesgr/views/api.py:196-198 | the window ends on the date and starts n days earlier, or raises `OverflowError` exactly when that is before the first day |
| Api.WindowAfter | fuelpricesgr/views/api.py:200 | the window starts on the date and ends n days later, or raises `OverflowError` exactly when that is after the last day |
| Api.GetDateRangeIdempotent | fuelpricesgr/views/api.py:186-207 | a resolved window, passed back as both bounds, resolves to itself on any day |
| Api.GetDateRangeKeepsShortWindow | fuelpricesgr/api.py:231-235 | ordered bounds at most MAX_DAYS apart are kept as given |
| Api.SourceFile | fuelpricesgr/enums.py:116-126 | the file type an endpoint's data comes from lists that data type |
| Api.DataEndpoint | fuelpricesgr/api.py:46-74 | an endpoint fails exactly when its window does; otherwise it reports, per date in ascending order, exactly the window's rows of its table, each date with the link its version attaches |
| Api.DataEndpointFlattens | fuelpricesgr/api.py:71-73 | the per-date groups of a query concatenate back to its rows, in order, one result per group |
| Api.WeeklyPrefectureByName | fuelpricesgr/api.py:158-194 | the window is resolved first and its error wins; then an unknown prefecture name gives a 400; otherwise the prefecture's weekly rows are reported per date |
| Api.PrefectureLinksAsWritten | fuelpricesgr/api.py:101 | the prefecture endpoints link each date to the daily country bulletin, which is not the file their data come from, and the two links differ |
| DateFormat.IsoFormat | fuelpricesgr/fetcher/base.py:51 | a date's ISO form is ten characters, dashes at positions 4 and 7, between digit fields that spell its year, month and day |
| DateFormat.IsoFormatInjective | fuelpricesgr/storage/firebase.py:105 | different dates have different ISO forms, so names built on them stay apart |
| DateFormat.IsoFileNameRoundTrip | fuelpricesgr/parser.py:23 | the name a date's bulletin is stored under matches the file-name pattern, and its groups read back as that date |
| DateFormat.FindDmyAfterPrefix | fuelpricesgr/fetch.py:73 | behind a digit-free prefix, the search for DD_MM_YYYY finds a date's form and its groups read back as that date |
| Numbers.DecimalRoundTrip | fuelpricesgr/database.py:293 | a finite decimal stored as its text reads back with the same sign, coefficient and exponent |
| Calendar.MakeDate | fuelpricesgr/fetch.py:77 | building a date succeeds exactly when the year, month and day name a day of the calendar, and a `ValueError` is raised otherwise |
| Calendar.LessIsTupleLess | fuelpricesgr/api.py:231 | comparing dates by their ordinals is Python's comparison of year, then month, then day |
| Calendar.AddDaysOrdinal | fuelpricesgr/api.py:226 | moving a date by a number of days succeeds exactly when the target lies in years 1 to 9999, and moves the ordinal by that number |
| Text.SplitLinesUnlines | fuelpricesgr/extract.py:35 | lines without line boundaries, each ended by a newline, are split back into those lines |
| Text.WordsOfJoin | fuelpricesgr/extract.py:36 | non-empty words free of whitespace, joined by single spaces, split back into those words, so collapsing whitespace twice changes nothing |

## Left out

- PDF text extraction (pypdf): the model starts from the extracted text. The Greek label and value regular expressions are oracles (`Parser.Matchers`, `Extract.Labels`), so label matching is not modelled.
- HTTP downloads, content-type checks, HTML page parsing, S3 and the Lambda functions: downloads and the list of page links are parameters.
- Database engines, sessions, ORM declarations and SQL execution: each store is a map from data type to rows. SQL text is modelled only where the code builds it.
- Argon2 hashing: a verifier function parameter.
- Caching (Redis, cachelib), mail senders, the sqladmin views, FastAPI routing and the pydantic schemas. The schemas appear only as record shapes.
- Command-line plumbing, logging and deployment, and the matplotlib drawing: of the drawing, the model keeps only the requirement that every series matches the axis.
- `date.today()` and `settings.MAX_DAYS`: parameters, because the clock is outside the model and the settings module does not define `MAX_DAYS`.
- The earlier Firestore storage's `date_range`: it returns `(None, None)` whatever is stored, so it has no model. The Firebase storage's `date_range` does the same, so on it the import command always starts at the first bulletin; the model's storage returning a pair answers from what is stored, as the abstract storage documents.
- Concurrency: every operation is one sequential step over an immutable store.
- Importing.ImportData: states when an error can be reported, not the converse over the whole command, whose windows move as data is written. For one pass over distinct dates both directions are stated by Importing.ImportDatesErrors, and the stop at the first failure by Importing.ImportDatesStops.
- Importing.ImportDates: over dates that repeat, states only that an error comes from the refused call or from a date whose fetch or write failed. The dates `dates()` yields are distinct, and for distinct dates Importing.ImportDatesErrors gives the exact condition.
- Importing.Write: a failed write is modelled as changing nothing. In the source, a `TypeError` from a row leaves the date's rows deleted in the open transaction, and an `IntegrityError` from the commit leaves the session waiting for a rollback. The command stops at either.
- Importing.ImporterDatesContinue: assumes each later date starts from a clean session. After a failed write the source's next call on the same session would either commit the pending delete or raise, which the model does not follow.
- DatesComplete: the dates are those the generator yields. When the range ends on 9999-12-31 the generator then raises `OverflowError`, which Enums.DatesOverflow states separately.
- ParseNames: upper-cases with ASCII letters only, where Python's `str.upper` also maps 'ı' to 'I', 'ſ' to 'S' and the ligatures 'ﬀ' to 'ﬆ' to ASCII letters. An argument such as "dıesel" is read by the source and refused by the model.
- ParseNamesCaseInsensitive: the case-insensitivity is the ASCII one, for the reason given under ParseNames.
- ParseDataFileTypesMeaning: inherits the ASCII upper-casing of ParseNames.
- ParseFuelTypesMeaning: inherits the ASCII upper-casing of ParseNames.
- Numbers.ParseDecimal: reads finite numbers only. `decimal.Decimal` also accepts "NaN", "sNaN", "Inf" and "Infinity" in any letter case and with a sign, and digits separated by underscores such as "1_000"; the model raises `InvalidOperation` for them. Extract.PriceValue and Parser.ParsePrice inherit this: at extract.py:79-85 a line whose price token is "NaN" gives the truthy `Decimal('NaN')` and a record in the source, and no record in the model.
- Text.IsDigit: the digits are the ASCII ones. Python's `\d`, `int()` and `decimal.Decimal` also accept the other Unicode decimal digits, which the bulletins and file names do not use.
- Extract.DailyCountryData: states only the bound of one record per line. Which records come out is stated on the line-level members, Extract.ExtractLinesMembers, Extract.ExtractLinesKept and Extract.LineRecord.
- Parser.PrefectureRecords: states what every record is. Which records come out, and in what order, is stated by Parser.PrefectureRecordsComplete and Parser.PrefectureRecordsOrdered.
- Parser.PrefectureData: states what every record is. Which records come out, and in what order, is stated by Parser.PrefectureDataComplete.
- Parser.CountryData: states the bound and the kind of the records. Their order and fuel types are stated by Parser.CountryDataOrder, Parser.CountryDataMatched and Parser.CountryRecordsFuelTypes.

## Findings

| source | as written | input that shows it | evidently intended | confidence | as-written member | corrected member |
|---|---|---|---|---|---|---|
| fuelpricesgr/services/sql.py:368-381 | `authenticate` looks the user up by e-mail under the column's NOCASE collation, returns False for an unknown user or a wrong password, and falls off the end (None) after a successful verification | a user whose password verifies gets None, which is falsy | True for a user whose password verifies, as the later version returns | not executed | Accounts.AuthenticateAsWritten | Accounts.Authenticate |
| fuelpricesgr/database.py:42-43 | the daily country table declares `number_of_stations` and `price` NOT NULL, while `insert_daily_country_data` (lines 177-178) binds NULL for a missing or zero value | a row with a price and no number of stations, which the extractor keeps, raises IntegrityError | nullable columns, so that the NULL mapping stores the row | not executed | Database.InsertDailyCountry | Database.InsertDailyCountryNullable |
| fuelpricesgr/storage/firebase.py:62 | `update_data` calls `_get_document_name(date=date, fuel_type=row['fuel_type'], prefecture=row.get('prefecture'))`, and the parsers store the fuel type as its value text, so line 105's `fuel_type.value` raises `AttributeError` (`KeyError` for a row without `fuel_type`) before any write; the name would be discarded anyway, since the document gets an auto-generated id | any non-empty list of rows: AttributeError, nothing stored | one document per row under the name of its date, fuel type and prefecture, as the later version writes | not executed | Firebase.AutoIdUpdate | Firebase.KeyedUpdateLastWins |
| fuelpricesgr/fetch.py:78-81 | a date is skipped when it is after `start_date` or before `end_date` | window 1 to 31 January 2020, bulletin of 15 January 2020: skipped | skip dates before the start or after the end | not executed | Fetching.PassesAsWrittenCounterexample | Fetching.ProcessLinkInserts |
| fuelpricesgr/api.py:101 | the daily prefecture and weekly prefecture endpoints (also line 180) link each date to `DataFileType.DAILY_COUNTRY.link(date)` | any date of the weekly prefecture endpoint links to a daily country bulletin | the link of the file the data came from | not executed | Api.PrefectureLinksAsWritten | Services.WeeklyPrefectureData |
| fuelpricesgr/commands/graph.py:51-52 | `plot` draws every enum fuel type, and fuel types outside `--types` have empty series | `--types DIESEL` with one day of data: a one-date axis and empty series for the other fuel types | draw only the requested fuel types | not executed | Graph.PlotAsWrittenCounterexample | Graph.DistinctPlotDrawable |
| fuelpricesgr/commands/import.py:80 | `s.data_exists(data_file_type=data_file_type, date=date)`, while the SQLAlchemy storage that `get_storage` opens declares `data_exists(data_type, date)`, so the call raises `TypeError`, which `import_data` catches as an error | `import` without `--update` over a window holding a publication date: nothing is imported and an error is reported | ask the storage about the data type, `data_exists(data_type=data_type, date=date)`, as the importer does | not executed | Importing.ImportDataAsWritten | Importing.ImportDatesErrors |
| fuelpricesgr/data.py:83-86 | `with file.open('wb') as file:` rebinds `file` to the writer, so a date whose file was just downloaded is yielded with the closed writer instead of its path | a link dated in the window whose file is not in the cache and downloads | yield the path of the stored file, as for a cached file | not executed | Fetching.FetchDataYieldsWriter | Fetching.FetchDataMatched |
| fuelpricesgr/commands/import.py:104 | `_, start_date = s.date_range(data_type=data_type)`, while the SQLAlchemy storage returns a pydantic `models.DateRange`, whose iteration yields (field, value) pairs, so `start_date` is the truthy pair ('end_date', …) and `dates()` raises `TypeError` at its first comparison, which `import_data` catches as an error | `import` without `--start-date`, with or without `--update`: nothing is imported and an error is reported | start at the range's `end_date`, as the importer does | not executed | Importing.ImportWithoutStartFails | Importing.FetchDateRangeResumes |
| fuelpricesgr/importer.py:32 | `start_date = data_type.min_date`, an attribute `enums.DataType` does not define, read outside the `try` | the importer run without a start date on an empty database: `AttributeError` ends `import_data` before anything is fetched | start at the data type's first bulletin date, as `_MIN_FILE_TYPE_DATES` gives in the import command | not executed | Importing.ImporterFreshStoreRaises | Importing.FetchDateRange |
