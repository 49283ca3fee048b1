/** Getting bulletin files: the cached-or-downloaded decision and the cache
    path of the file fetchers, the link processing of the older fetch
    module (file name, date, date filter, href clean-up, insert decision)
    and the link parsing of the data fetcher. Downloads, the HTML page and
    the file system are parameters.
 */
module Fetching {
  import opened Options
  import opened Calendar
  import opened Text
  import opened DateFormat
  import opened Enums

  // ---------------------------------------------------------------------
  // The file fetchers
  // ---------------------------------------------------------------------

  /** `BaseFetcher.path()`: the data file type's directory and the ISO date. */
  function CachePath(ft: DataFileType, d: Date): string {
    DataFileTypeValue(ft) + "/" + IsoFormat(d) + ".pdf"
  }

  /** The ISO form of a date holds digits and dashes only. */
  lemma IsoFormatChars(d: Date)
    ensures forall i :: 0 <= i < 10 ==> IsDigit(IsoFormat(d)[i]) || IsoFormat(d)[i] == '-'
  {
    var s := IsoFormat(d);
    assert forall i :: 0 <= i < 4 ==> s[..4][i] == s[i];
    assert forall i :: 5 <= i < 7 ==> s[5..7][i - 5] == s[i];
    assert forall i :: 8 <= i < 10 ==> s[8..][i - 8] == s[i];
  }

  lemma NoSlashInValue(ft: DataFileType)
    ensures '/' !in DataFileTypeValue(ft) && DataFileTypeValue(ft) != ""
  {
    match ft
    case Weekly =>
    case DailyCountryFile =>
    case DailyPrefectureFile =>
  }

  /** The path is the data file type's directory, a '/', and a file name the
      bulletin parser reads back as the date. */
  lemma CachePathParts(ft: DataFileType, d: Date)
    ensures var p := CachePath(ft, d); var k := RFind(p, '/');
      k == |DataFileTypeValue(ft)| && p[..k] == DataFileTypeValue(ft) && p[k + 1..] == IsoFormat(d) + ".pdf"
      && MatchIsoFileName(p[k + 1..]).Some? && GroupsDate(MatchIsoFileName(p[k + 1..]).value) == Ok(d)
  {
    var v, name := DataFileTypeValue(ft), IsoFormat(d) + ".pdf";
    assert CachePath(ft, d) == (v + "/") + name;
    IsoFormatChars(d);
    assert '/' !in name by {
      forall j | 0 <= j < |name|
        ensures name[j] != '/'
      {
        if j >= |IsoFormat(d)| { assert name[j] == ".pdf"[j - |IsoFormat(d)|]; }
      }
    }
    SlashJoined(v, name);
    IsoFileNameRoundTrip(d);
  }

  /** A directory and a name without '/' joined by '/' split back at the last '/'. */
  lemma SlashJoined(v: string, name: string)
    requires '/' !in name
    ensures var p := (v + "/") + name; var k := RFind(p, '/');
      k == |v| && p[..k] == v && p[k + 1..] == name
  {
    RFindAfter(v + "/", name, '/');
    var p := (v + "/") + name;
    assert p[..|v|] == v;
  }

  /** Different files have different paths. */
  lemma CachePathInjective(ft: DataFileType, d: Date, gt: DataFileType, e: Date)
    requires CachePath(ft, d) == CachePath(gt, e)
    ensures ft == gt && d == e
  {
    CachePathParts(ft, d);
    CachePathParts(gt, e);
    assert DataFileTypeValue(ft) == DataFileTypeValue(gt);
    DataFileTypeValueInjective(ft, gt);
    var name := IsoFormat(d) + ".pdf";
    assert IsoFormat(d) == name[..10] == IsoFormat(e);
    IsoFormatInjective(d, e);
  }

  lemma DataFileTypeValueInjective(ft: DataFileType, gt: DataFileType)
    requires DataFileTypeValue(ft) == DataFileTypeValue(gt)
    ensures ft == gt
  {
    match ft
    case Weekly =>
      assert DataFileTypeValue(ft)[0] == 'w';
    case DailyCountryFile =>
      assert DataFileTypeValue(ft)[6] == 'c';
    case DailyPrefectureFile =>
      assert DataFileTypeValue(ft)[6] == 'p';
  }

  /** Where `BaseFetcher.data` takes the file from. */
  datatype Source = ReadCache | Download

  /** `BaseFetcher.data(skip_cache)`: the stored file is read when it exists
      and the cache is not skipped; in every other case it is fetched. */
  function DataSource(stored: bool, skipCache: bool): (src: Source)
    ensures src == ReadCache <==> stored && !skipCache
    ensures src == Download <==> !stored || skipCache
  {
    if stored then (if skipCache then Download else ReadCache) else Download
  }

  /** `BaseFetcher.data` over a file store whose `fetch` downloads the
      bulletin and stores it under the path when the download succeeds: the
      result is the stored file or the download, unchanged. */
  function FetcherData<B>(files: map<string, B>, ft: DataFileType, d: Date, skipCache: bool, download: Option<B>): (r: (Option<B>, map<string, B>))
    ensures var p := CachePath(ft, d);
      DataSource(p in files, skipCache) == ReadCache ==> p in files && r == (Some(files[p]), files)
    ensures var p := CachePath(ft, d);
      DataSource(p in files, skipCache) == Download ==>
        r.0 == download && r.1 == (if download.Some? then files[p := download.value] else files)
  {
    var p := CachePath(ft, d);
    match DataSource(p in files, skipCache)
    case ReadCache => (Some(files[p]), files)
    case Download =>
      match download
      case Some(b) => (Some(b), files[p := b])
      case None => (None, files)
  }

  /** A file once obtained is served from the store afterwards, without a
      new download, and no other stored file changes. */
  lemma FetcherDataCaches<B>(files: map<string, B>, ft: DataFileType, d: Date, skipCache: bool, download: Option<B>, again: Option<B>)
    requires FetcherData(files, ft, d, skipCache, download).0.Some?
    ensures var (got, files') := FetcherData(files, ft, d, skipCache, download);
      FetcherData(files', ft, d, false, again) == (got, files')
    ensures var files' := FetcherData(files, ft, d, skipCache, download).1;
      forall p :: p != CachePath(ft, d) ==> (p in files' <==> p in files) && (p in files ==> files'[p] == files[p])
  {
  }

  // ---------------------------------------------------------------------
  // The link processing of the fetch module
  // ---------------------------------------------------------------------

  /** `file_link[file_link.rfind('/') + 1:]`: the text after the last '/'. */
  function FileNameOf(link: string): (name: string)
    ensures '/' !in name && EndsWith(link, name)
    ensures |name| < |link| ==> link[|link| - |name| - 1] == '/'
    ensures |name| == |link| ==> '/' !in link
  {
    var k := RFind(link, '/');
    var name := link[k + 1..];
    assert |link| - |name| - 1 == k;
    assert '/' !in name by {
      forall j | 0 <= j < |name|
        ensures name[j] != '/'
      {
        assert name[j] == link[k + 1 + j];
      }
    }
    assert EndsWith(link, name) by {
      assert link[|link| - |name|..] == name;
    }
    assert k == -1 ==> '/' !in link by {
      if k == -1 {
        assert forall j :: 0 <= j < |link| ==> link[j] != '/';
      }
    }
    name
  }

  /** The date `process_link` reads from a file name: none when no
      DD_MM_YYYY occurs, and `ValueError` when the first occurrence does not
      name a day. */
  function NameDate(name: string): (r: Result<Option<Date>>)
    ensures r == Ok(None) <==> forall j :: !DmyAt(name, j)
    ensures r.Err? ==> r.error == ValueError
  {
    match FindDmy(name)
    case None => Ok(None)
    case Some(g) =>
      match GroupsDate(g)
      case Err(e) => Err(e)
      case Ok(d) => Ok(Some(d))
  }

  /** The date a bulletin's file name is published under. */
  function NamedDate(t: DataFileType, d: Date): Date {
    if t == Weekly && WeeklyRenaming(d).Some? then WeeklyRenaming(d).value.named else d
  }

  /** The link of a bulletin is read back as the date its file name carries:
      the bulletin's own date, except for the weekly bulletins published
      under another date's name. */
  lemma LinkDateRoundTrip(t: DataFileType, d: Date)
    ensures FileNameOf(Link(t, d)) == FileName(t, d)
    ensures NameDate(FileNameOf(Link(t, d))) == Ok(Some(NamedDate(t, d)))
  {
    LinkFileName(t, d);
    var n := NamedDate(t, d);
    var suffix := if t == Weekly && WeeklyRenaming(d).Some? then WeeklyRenaming(d).value.suffix else ".pdf";
    assert FileName(t, d) == NamedFile(t, n, suffix);
    var p := Prefix(t) + "_";
    forall k | 0 <= k < |p|
      ensures !IsDigit(p[k])
    {
      if k < |Prefix(t)| {
        assert IsUpperOrUnderscore(Prefix(t)[k]);
      }
    }
    FindDmyAfterPrefix(p, n, suffix);
  }

  /** `date > start_date` or `date < end_date` skips the link: as written,
      a date passes only when it lies between the end and the start date. */
  predicate PassesAsWritten(d: Date, start: Option<Date>, end: Option<Date>) {
    !(start.Some? && Less(start.value, d)) && !(end.Some? && Less(d, end.value))
  }

  /** The window a date filter is meant to apply: from the start date to the end date, both included. */
  predicate InWindow(d: Date, start: Option<Date>, end: Option<Date>) {
    (start.None? || LessEq(start.value, d)) && (end.None? || LessEq(d, end.value))
  }

  /** The filter as written is the window with its bounds swapped. */
  lemma PassesAsWrittenSwapped(d: Date, start: Option<Date>, end: Option<Date>)
    ensures PassesAsWritten(d, start, end) <==> InWindow(d, end, start)
  {
  }

  /** With a start date before the end date, as written no date passes,
      although every day of the window should. */
  lemma PassesAsWrittenDropsWindow(d: Date, start: Date, end: Date)
    requires Less(start, end)
    ensures !PassesAsWritten(d, Some(start), Some(end))
  {
  }

  /** A concrete case: the middle of January 2020 is in the January window and is dropped. */
  lemma PassesAsWrittenCounterexample()
    ensures InWindow(Ymd(2020, 1, 15), Some(Ymd(2020, 1, 1)), Some(Ymd(2020, 1, 31)))
    ensures !PassesAsWritten(Ymd(2020, 1, 15), Some(Ymd(2020, 1, 1)), Some(Ymd(2020, 1, 31)))
  {
    DaysBeforeYearClosed(2020);
  }

  /** What `process_link` does with a link. */
  datatype LinkStep =
    | NoDate              // no DD_MM_YYYY in the file name: logged and skipped
    | Filtered(d: Date)   // outside the dates asked for
    | Unfetched(d: Date)  // the download raised `requests.HTTPError`: logged and skipped
    | Kept(d: Date)       // data of the date exists and `update` is not set
    | Insert(d: Date)     // the file's rows are extracted and inserted for the date

  /** How getting a date's file ends: read from the cache or downloaded, an
      HTTP error status, or another error of `requests`, which propagates. */
  datatype Download = Obtained | HttpFailed | RequestFailed

  /** The date of a link's file name, when it has a valid one. */
  predicate NamesDate(link: string, d: Date) {
    NameDate(FileNameOf(link)) == Ok(Some(d))
  }

  /** `process_link` with a date filter: the date of the file name, the
      filter, the file from the cache or the network, then the insert
      decision. */
  function ProcessLinkWith(link: string, keep: Date -> bool, update: bool, hasData: Date -> bool,
                           download: Date -> Download): (r: Result<LinkStep>)
    ensures r == Ok(NoDate) <==> NameDate(FileNameOf(link)) == Ok(None)
    ensures r.Err? <==> (NameDate(FileNameOf(link)).Err?
      || exists d :: NamesDate(link, d) && keep(d) && download(d) == RequestFailed)
    ensures NameDate(FileNameOf(link)).Err? ==> r == Err(NameDate(FileNameOf(link)).error)
    ensures r.Err? && NameDate(FileNameOf(link)).Ok? ==> r.error == RequestException
    ensures r.Ok? && !r.value.NoDate? ==> NamesDate(link, r.value.d)
  {
    match NameDate(FileNameOf(link))
    case Err(e) => Err(e)
    case Ok(None) => Ok(NoDate)
    case Ok(Some(d)) =>
      if !keep(d) then Ok(Filtered(d))
      else match download(d)
        case HttpFailed => Ok(Unfetched(d))
        case RequestFailed => Err(RequestException)
        case Obtained => if update || !hasData(d) then Ok(Insert(d)) else Ok(Kept(d))
  }

  /** A link naming date d is filtered exactly when d fails the filter,
      skipped exactly when d passes and the download gets an HTTP error,
      inserted exactly when d passes, the file is obtained and `update` is
      set or d has no data, and kept otherwise. */
  lemma ProcessLinkSteps(link: string, keep: Date -> bool, update: bool, hasData: Date -> bool,
                         download: Date -> Download, d: Date)
    requires NamesDate(link, d)
    ensures var r := ProcessLinkWith(link, keep, update, hasData, download);
      (r == Ok(Filtered(d)) <==> !keep(d))
      && (r == Ok(Unfetched(d)) <==> keep(d) && download(d) == HttpFailed)
      && (r == Ok(Insert(d)) <==> keep(d) && download(d) == Obtained && (update || !hasData(d)))
      && (r == Ok(Kept(d)) <==> keep(d) && download(d) == Obtained && !update && hasData(d))
      && (r.Err? <==> keep(d) && download(d) == RequestFailed)
  {
  }

  /** `process_link` as written, with the inverted filter. */
  function ProcessLinkAsWritten(link: string, start: Option<Date>, end: Option<Date>, update: bool, hasData: Date -> bool,
                                download: Date -> Download): Result<LinkStep> {
    ProcessLinkWith(link, (d: Date) => PassesAsWritten(d, start, end), update, hasData, download)
  }

  /** `process_link` with the inclusive window. */
  function ProcessLink(link: string, start: Option<Date>, end: Option<Date>, update: bool, hasData: Date -> bool,
                       download: Date -> Download): Result<LinkStep> {
    ProcessLinkWith(link, (d: Date) => InWindow(d, start, end), update, hasData, download)
  }

  /** As written, a bulletin link inside a window whose start precedes its
      end is always filtered out, before anything is downloaded. */
  lemma ProcessLinkAsWrittenFilters(t: DataFileType, d: Date, start: Date, end: Date, update: bool, hasData: Date -> bool,
                                    download: Date -> Download)
    requires Less(start, end)
    ensures ProcessLinkAsWritten(Link(t, d), Some(start), Some(end), update, hasData, download) == Ok(Filtered(NamedDate(t, d)))
  {
    LinkDateRoundTrip(t, d);
    PassesAsWrittenDropsWindow(NamedDate(t, d), start, end);
  }

  /** With the inclusive window, a bulletin link is inserted exactly when
      its date is in the window, its file is obtained and `update` is set or
      the date has no data; it is filtered exactly when its date is outside
      the window, and skipped after an HTTP error exactly when its date is
      inside and the download fails so. */
  lemma ProcessLinkInserts(t: DataFileType, d: Date, start: Option<Date>, end: Option<Date>, update: bool, hasData: Date -> bool,
                           download: Date -> Download)
    ensures var n := NamedDate(t, d);
      ProcessLink(Link(t, d), start, end, update, hasData, download) == Ok(Insert(n)) <==>
        InWindow(n, start, end) && download(n) == Obtained && (update || !hasData(n))
    ensures var n := NamedDate(t, d);
      ProcessLink(Link(t, d), start, end, update, hasData, download) == Ok(Filtered(n)) <==> !InWindow(n, start, end)
    ensures var n := NamedDate(t, d);
      ProcessLink(Link(t, d), start, end, update, hasData, download) == Ok(Unfetched(n)) <==>
        InWindow(n, start, end) && download(n) == HttpFailed
  {
    LinkDateRoundTrip(t, d);
  }

  // ---------------------------------------------------------------------
  // The href clean-up of the fetch module
  // ---------------------------------------------------------------------

  /** `\(\d\)` matches at index i. */
  predicate ParenDigitAt(s: string, i: nat) {
    i + 3 <= |s| && s[i] == '(' && IsDigit(s[i + 1]) && s[i + 2] == ')'
  }

  /** `re.sub(r'\(\d\)', '', s)`: left to right, each match removed, scanning on after it. */
  function RemoveParenDigits(s: string): (r: string)
    ensures |r| <= |s|
    decreases |s|
  {
    if s == [] then ""
    else if ParenDigitAt(s, 0) then RemoveParenDigits(s[3..])
    else [s[0]] + RemoveParenDigits(s[1..])
  }

  /** The leading run of '?' dropped. */
  function DropQuestionMarks(s: string): (r: string)
    ensures |r| <= |s| && (r == [] || r[0] != '?')
    ensures s[|s| - |r|..] == r && forall i :: 0 <= i < |s| - |r| ==> s[i] == '?'
    decreases |s|
  {
    if s != [] && s[0] == '?' then
      var r := DropQuestionMarks(s[1..]);
      assert s[1..][|s[1..]| - |r|..] == s[|s| - |r|..];
      r
    else s
  }

  /** `re.sub(r'-\?+', '', s)`: each '-' followed by a run of '?' removed with the run. */
  function RemoveDashQuestions(s: string): (r: string)
    ensures |r| <= |s|
    decreases |s|
  {
    if s == [] then ""
    else if |s| >= 2 && s[0] == '-' && s[1] == '?' then RemoveDashQuestions(DropQuestionMarks(s[1..]))
    else [s[0]] + RemoveDashQuestions(s[1..])
  }

  /** The href clean-up of `fetch`: only hrefs starting with "./files" are
      kept; spaces, "(d)" groups and "-?…" runs are removed, in that order. */
  function CleanHref(href: string): (r: Option<string>)
    ensures r.Some? <==> StartsWith(href, "./files")
    ensures r.Some? ==> ' ' !in r.value && |r.value| <= |href|
  {
    if StartsWith(href, "./files") then
      var a := RemoveChar(href, ' ');
      RemoveParenDigitsKeeps(a, ' ');
      var b := RemoveParenDigits(a);
      RemoveDashQuestionsKeeps(b, ' ');
      Some(RemoveDashQuestions(b))
    else None
  }

  /** The text with the characters a predicate picks left out. */
  function Sift(s: string, drop: char -> bool): (r: string)
    decreases |s|
  {
    if s == [] then "" else (if drop(s[0]) then "" else [s[0]]) + Sift(s[1..], drop)
  }

  predicate ParenOrDigit(c: char) {
    c == '(' || c == ')' || IsDigit(c)
  }

  predicate DashOrQuestion(c: char) {
    c == '-' || c == '?'
  }

  /** Removing "(d)" groups removes only parentheses and digits: every other character stays, in order. */
  lemma {:induction false} RemoveParenDigitsSift(s: string)
    ensures Sift(RemoveParenDigits(s), ParenOrDigit) == Sift(s, ParenOrDigit)
    decreases |s|
  {
    if s != [] {
      if ParenDigitAt(s, 0) {
        RemoveParenDigitsSift(s[3..]);
        assert s[1..][1..][1..] == s[3..];
        assert Sift(s[1..][1..], ParenOrDigit) == Sift(s[3..], ParenOrDigit);
        assert Sift(s[1..], ParenOrDigit) == Sift(s[1..][1..], ParenOrDigit);
        assert Sift(s, ParenOrDigit) == Sift(s[1..], ParenOrDigit);
      } else {
        RemoveParenDigitsSift(s[1..]);
        assert ([s[0]] + RemoveParenDigits(s[1..]))[1..] == RemoveParenDigits(s[1..]);
      }
    }
  }

  /** A leading run of '?' holds nothing but '-' and '?'. */
  lemma {:induction false} DropQuestionMarksSift(s: string)
    ensures Sift(DropQuestionMarks(s), DashOrQuestion) == Sift(s, DashOrQuestion)
    decreases |s|
  {
    if s != [] && s[0] == '?' {
      DropQuestionMarksSift(s[1..]);
    }
  }

  /** Removing "-?…" runs removes only dashes and question marks: every other character stays, in order. */
  lemma {:induction false} RemoveDashQuestionsSift(s: string)
    ensures Sift(RemoveDashQuestions(s), DashOrQuestion) == Sift(s, DashOrQuestion)
    decreases |s|
  {
    if s != [] {
      if |s| >= 2 && s[0] == '-' && s[1] == '?' {
        DropQuestionMarksSift(s[1..]);
        RemoveDashQuestionsSift(DropQuestionMarks(s[1..]));
      } else {
        RemoveDashQuestionsSift(s[1..]);
        assert ([s[0]] + RemoveDashQuestions(s[1..]))[1..] == RemoveDashQuestions(s[1..]);
      }
    }
  }

  lemma {:induction false} RemoveParenDigitsKeeps(s: string, x: char)
    requires x !in s
    ensures x !in RemoveParenDigits(s)
    decreases |s|
  {
    if s != [] {
      if ParenDigitAt(s, 0) {
        RemoveParenDigitsKeeps(s[3..], x);
      } else {
        RemoveParenDigitsKeeps(s[1..], x);
      }
    }
  }

  lemma {:induction false} RemoveDashQuestionsKeeps(s: string, x: char)
    requires x !in s
    ensures x !in RemoveDashQuestions(s)
    decreases |s|
  {
    if s != [] {
      if |s| >= 2 && s[0] == '-' && s[1] == '?' {
        RemoveDashQuestionsKeeps(DropQuestionMarks(s[1..]), x);
      } else {
        RemoveDashQuestionsKeeps(s[1..], x);
      }
    }
  }

  lemma {:induction false} RemoveParenDigitsPlain(s: string)
    requires '(' !in s
    ensures RemoveParenDigits(s) == s
    decreases |s|
  {
    if s != [] {
      RemoveParenDigitsPlain(s[1..]);
    }
  }

  lemma {:induction false} RemoveDashQuestionsPlain(s: string)
    requires '-' !in s
    ensures RemoveDashQuestions(s) == s
    decreases |s|
  {
    if s != [] {
      RemoveDashQuestionsPlain(s[1..]);
    }
  }

  /** An href without spaces, parentheses and dashes is left as it is. */
  lemma CleanHrefPlain(href: string)
    requires StartsWith(href, "./files") && ' ' !in href && '(' !in href && '-' !in href
    ensures CleanHref(href) == Some(href)
  {
    RemoveAbsentChar(href, ' ');
    RemoveParenDigitsPlain(href);
    RemoveDashQuestionsPlain(href);
  }

  /** Characters of bulletin file names. */
  predicate FileNameChar(c: char) {
    'A' <= c <= 'Z' || c == '_' || IsDigit(c) || c == '.' || c == 'p' || c == 'd' || c == 'f'
  }

  lemma NamedFileChars(t: DataFileType, d: Date, suffix: string)
    requires forall i :: 0 <= i < |suffix| ==> FileNameChar(suffix[i])
    ensures forall i :: 0 <= i < |NamedFile(t, d, suffix)| ==> FileNameChar(NamedFile(t, d, suffix)[i])
  {
    var p, x := Prefix(t), DmyFormat(d);
    var f := NamedFile(t, d, suffix);
    DmyFormatChars(d);
    forall i | 0 <= i < |f| ensures FileNameChar(f[i]) {
      if i < |p| { assert f[i] == p[i] && IsUpperOrUnderscore(p[i]); }
      else if i == |p| { }
      else if i < |p| + 11 { assert f[i] == x[i - |p| - 1]; }
      else { assert f[i] == suffix[i - |p| - 11]; }
    }
  }

  /** An href in the link directory to a file named with these characters
      passes the clean-up unchanged. */
  lemma CleanHrefOfFileName(f: string)
    requires forall i :: 0 <= i < |f| ==> FileNameChar(f[i])
    ensures CleanHref(LinkDir + f) == Some(LinkDir + f)
  {
    var href := LinkDir + f;
    assert href[..7] == "./files";
    forall i | 0 <= i < |href|
      ensures href[i] != ' ' && href[i] != '(' && href[i] != '-'
    {
      if i >= |LinkDir| {
        assert href[i] == f[i - |LinkDir|];
      }
    }
    CleanHrefPlain(href);
  }

  /** The href of a bulletin on the site passes the clean-up unchanged. */
  lemma CleanHrefOfBulletin(t: DataFileType, d: Date)
    ensures CleanHref(LinkDir + FileName(t, d)) == Some(LinkDir + FileName(t, d))
  {
    var n, suffix := NamedDate(t, d), BulletinSuffix(t, d);
    assert FileName(t, d) == NamedFile(t, n, suffix);
    assert forall i :: 0 <= i < |suffix| ==> FileNameChar(suffix[i]);
    NamedFileChars(t, n, suffix);
    CleanHrefOfFileName(NamedFile(t, n, suffix));
  }

  // ---------------------------------------------------------------------
  // The data fetcher
  // ---------------------------------------------------------------------

  /** The directory of the bulletin links on the site's pages. */
  const LinkDir := "./files/deltia/"

  /** The text of the named groups of a matched bulletin link. */
  datatype LinkGroups = LinkGroups(prefix: string, day: string, month: string, year: string)

  /** The characters of the filler class `[ =.?\-()\d]`. */
  predicate FillerChar(c: char) {
    c == ' ' || c == '=' || c == '.' || c == '?' || c == '-' || c == '(' || c == ')' || IsDigit(c)
  }

  /** The tail `[ =.?\-()\d]*.(pdf|doc)$` after the year: filler, one
      character other than a newline, the extension, and the end of the text
      or a final newline. */
  predicate TailMatches(t: string) {
    var u := if |t| > 0 && t[|t| - 1] == '\n' then t[..|t| - 1] else t;
    |u| >= 4 && (u[|u| - 3..] == "pdf" || u[|u| - 3..] == "doc") && u[|u| - 4] != '\n'
    && forall k :: 0 <= k < |u| - 4 ==> FillerChar(u[k])
  }

  /** The length of the run of capitals and underscores at index i. */
  function UpperRun(s: string, i: nat): (n: nat)
    requires i <= |s|
    ensures i + n <= |s| && forall k :: i <= k < i + n ==> IsUpperOrUnderscore(s[k])
    ensures i + n == |s| || !IsUpperOrUnderscore(s[i + n])
    decreases |s| - i
  {
    if i < |s| && IsUpperOrUnderscore(s[i]) then 1 + UpperRun(s, i + 1) else 0
  }

  /** The anchored match of the link pattern: the link directory, then the
      rest of the link. */
  function MatchLink(href: string): (m: Option<LinkGroups>)
    ensures m.Some? ==> 1 <= |m.value.day| <= 2 && |m.value.month| == 2 && |m.value.year| == 4
    ensures m.Some? ==> AllDigits(m.value.day) && AllDigits(m.value.month) && AllDigits(m.value.year)
  {
    if StartsWith(href, LinkDir) then MatchNamed(href[15..]) else None
  }

  /** The prefix `[A-Z_]+` must be followed by '_' and a digit, so it is the
      run of capitals and underscores less the run's final underscore. */
  function MatchNamed(s: string): (m: Option<LinkGroups>)
    ensures m.Some? ==> 1 <= |m.value.day| <= 2 && |m.value.month| == 2 && |m.value.year| == 4
    ensures m.Some? ==> AllDigits(m.value.day) && AllDigits(m.value.month) && AllDigits(m.value.year)
  {
    var n := UpperRun(s, 0);
    if n < 2 || s[n - 1] != '_' then None
    else match MatchDayMonthYear(s[n..])
      case None => None
      case Some(dmy) => Some(LinkGroups(s[..n - 1], dmy.0, dmy.1, dmy.2))
  }

  /** The day `\d{1,2}` and its '_': two digits when a '_' follows them,
      one when a '_' follows it, no match (0) otherwise. */
  function DayLength(s: string): (n: nat)
    ensures n <= 2 && (n > 0 ==> n < |s| && s[n] == '_' && forall i :: 0 <= i < n ==> IsDigit(s[i]))
  {
    if |s| > 2 && IsDigit(s[0]) && IsDigit(s[1]) && s[2] == '_' then 2
    else if |s| > 1 && IsDigit(s[0]) && s[1] == '_' then 1
    else 0
  }

  /** Day, month and year separated by underscores, then the tail. */
  function MatchDayMonthYear(s: string): (m: Option<(string, string, string)>)
    ensures m.Some? ==> 1 <= |m.value.0| <= 2 && |m.value.1| == 2 && |m.value.2| == 4
    ensures m.Some? ==> AllDigits(m.value.0) && AllDigits(m.value.1) && AllDigits(m.value.2)
  {
    var dl := DayLength(s);
    if dl == 0 then None
    else
      var r := s[dl + 1..];
      if |r| >= 7 && AllDigits(r[..2]) && r[2] == '_' && AllDigits(r[3..7]) && TailMatches(r[7..]) then
        assert forall i :: 0 <= i < dl ==> IsDigit(s[..dl][i]);
        Some((s[..dl], r[..2], r[3..7]))
      else None
  }

  /** The regular expression as a decomposition: the link directory, the
      prefix, the day, month and year separated by underscores, and a tail. */
  predicate Decomposes(href: string, g: LinkGroups, tail: string) {
    && |g.prefix| >= 1 && (forall i :: 0 <= i < |g.prefix| ==> IsUpperOrUnderscore(g.prefix[i]))
    && 1 <= |g.day| <= 2 && AllDigits(g.day) && |g.month| == 2 && AllDigits(g.month)
    && |g.year| == 4 && AllDigits(g.year)
    && TailMatches(tail)
    && href == LinkDir + (g.prefix + "_" + (g.day + "_" + (g.month + "_" + (g.year + tail))))
  }

  lemma DayMonthYearSound(s: string, day: string, month: string, year: string) returns (tail: string)
    requires MatchDayMonthYear(s) == Some((day, month, year))
    ensures s == day + "_" + (month + "_" + (year + tail)) && TailMatches(tail)
  {
    var dl := DayLength(s);
    var r := s[dl + 1..];
    tail := r[7..];
    assert r == r[..2] + "_" + (r[3..7] + tail);
    assert s == s[..dl] + "_" + r;
  }

  lemma MatchNamedSound(s: string, g: LinkGroups) returns (rest: string)
    requires MatchNamed(s) == Some(g)
    ensures s == g.prefix + "_" + rest && MatchDayMonthYear(rest) == Some((g.day, g.month, g.year))
    ensures forall i :: 0 <= i < |g.prefix| ==> IsUpperOrUnderscore(g.prefix[i])
  {
    var n := UpperRun(s, 0);
    rest := s[n..];
    assert s == s[..n - 1] + "_" + rest;
  }

  lemma LinkDirSplit(href: string) returns (s: string)
    requires StartsWith(href, LinkDir)
    ensures href == LinkDir + s && MatchLink(href) == MatchNamed(s)
  {
    s := href[15..];
    assert href == href[..15] + s;
  }

  lemma DecomposesIntro(href: string, s: string, rest: string, g: LinkGroups, tail: string)
    requires href == LinkDir + s && s == g.prefix + "_" + rest && rest == g.day + "_" + (g.month + "_" + (g.year + tail))
    requires |g.prefix| >= 1 && forall i :: 0 <= i < |g.prefix| ==> IsUpperOrUnderscore(g.prefix[i])
    requires 1 <= |g.day| <= 2 && AllDigits(g.day) && |g.month| == 2 && AllDigits(g.month) && |g.year| == 4 && AllDigits(g.year)
    requires TailMatches(tail)
    ensures Decomposes(href, g, tail)
  {
  }

  /** A match is a decomposition. */
  lemma MatchLinkSound(href: string, g: LinkGroups)
    requires MatchLink(href) == Some(g)
    ensures exists tail :: Decomposes(href, g, tail)
  {
    var s := LinkDirSplit(href);
    var rest := MatchNamedSound(s, g);
    var tail := DayMonthYearSound(rest, g.day, g.month, g.year);
    DecomposesIntro(href, s, rest, g, tail);
  }

  /** A run of capitals and underscores that ends before a digit is the whole run. */
  lemma UpperRunOf(s: string, i: nat, n: nat)
    requires i + n < |s| && (forall k :: i <= k < i + n ==> IsUpperOrUnderscore(s[k])) && IsDigit(s[i + n])
    ensures UpperRun(s, i) == n
  {
  }

  lemma DayMonthYearComplete(day: string, month: string, year: string, tail: string)
    requires 1 <= |day| <= 2 && AllDigits(day) && |month| == 2 && AllDigits(month) && |year| == 4 && AllDigits(year)
    requires TailMatches(tail)
    ensures MatchDayMonthYear(day + "_" + (month + "_" + (year + tail))) == Some((day, month, year))
  {
    var r := month + "_" + (year + tail);
    var s := day + "_" + r;
    assert s[0] == day[0];
    if |day| == 2 {
      assert s[1] == day[1];
    }
    assert DayLength(s) == |day|;
    assert s[|day| + 1..] == r;
    assert s[..|day|] == day;
    assert r[..2] == month && r[2] == '_';
    assert r[3..] == year + tail;
    assert r[3..7] == year && r[7..] == tail;
  }

  /** Every decomposition is the match: the groups are determined by the link. */
  lemma MatchLinkComplete(href: string, g: LinkGroups, tail: string)
    requires Decomposes(href, g, tail)
    ensures MatchLink(href) == Some(g)
  {
    var p := |g.prefix|;
    var rest := g.day + "_" + (g.month + "_" + (g.year + tail));
    var s := g.prefix + "_" + rest;
    assert href[..15] == LinkDir && href[15..] == s;
    assert s[p + 1] == g.day[0];
    UpperRunOf(s, 0, p + 1);
    assert s[p] == '_' && s[..p] == g.prefix && s[p + 1..] == rest;
    DayMonthYearComplete(g.day, g.month, g.year, tail);
  }

  /** `datetime.date(year=…, month=…, day=…)` on the groups of a match. */
  function LinkDate(g: LinkGroups): (r: Result<Date>)
    requires AllDigits(g.day) && AllDigits(g.month) && AllDigits(g.year)
    ensures r.Ok? <==> ValidYmd(Ymd(DigitsValue(g.year), DigitsValue(g.month), DigitsValue(g.day)))
    ensures r.Err? ==> r.error == ValueError
    ensures r.Ok? ==> r.value.year == DigitsValue(g.year) && r.value.month == DigitsValue(g.month) && r.value.day == DigitsValue(g.day)
  {
    GroupsDate(DateGroups(g.year, g.month, g.day))
  }

  /** The file name the bulletin is downloaded under: prefix, day, month and
      year as they appear in the link, and ".pdf" whatever the link's extension. */
  function RebuiltName(g: LinkGroups): string {
    g.prefix + "_" + g.day + "_" + g.month + "_" + g.year + ".pdf"
  }

  /** The href of a link to a file named for the date n: the link
      directory, the prefix, DD_MM_YYYY and the suffix. */
  function NamedHref(t: DataFileType, n: Date, suffix: string): string {
    LinkDir + NamedFile(t, n, suffix)
  }

  /** The groups such a link is meant to match with: the prefix and the date's fields. */
  function NamedGroups(t: DataFileType, n: Date): LinkGroups {
    var x := DmyFormat(n);
    LinkGroups(Prefix(t), x[..2], x[3..5], x[6..])
  }

  /** The DD_MM_YYYY form split at its underscores. */
  lemma DmyParts(d: Date, suffix: string)
    ensures var x := DmyFormat(d); x + suffix == x[..2] + "_" + (x[3..5] + "_" + (x[6..] + suffix))
  {
    var x := DmyFormat(d);
    assert x == x[..2] + "_" + x[3..5] + "_" + x[6..];
  }

  lemma NamedDecomposes(t: DataFileType, n: Date, suffix: string)
    requires TailMatches(suffix)
    ensures Decomposes(NamedHref(t, n, suffix), NamedGroups(t, n), suffix)
  {
    var g := NamedGroups(t, n);
    assert NamedHref(t, n, suffix) == LinkDir + (g.prefix + "_" + (g.day + "_" + (g.month + "_" + (g.year + suffix)))) by {
      DmyParts(n, suffix);
    }
    assert forall i :: 0 <= i < |g.prefix| ==> IsUpperOrUnderscore(g.prefix[i]);
    assert AllDigits(g.day) && AllDigits(g.month) && AllDigits(g.year);
  }

  /** A link to a file named for the date n, with any tail the pattern
      accepts, matches with the prefix and the fields of n, reads back as n,
      and is downloaded under the name written with ".pdf". */
  lemma MatchNamedHref(t: DataFileType, n: Date, suffix: string)
    requires TailMatches(suffix)
    ensures MatchLink(NamedHref(t, n, suffix)) == Some(NamedGroups(t, n))
    ensures NamedGroups(t, n).prefix == Prefix(t) && LinkDate(NamedGroups(t, n)) == Ok(n)
    ensures RebuiltName(NamedGroups(t, n)) == NamedFile(t, n, ".pdf")
  {
    NamedDecomposes(t, n, suffix);
    MatchLinkComplete(NamedHref(t, n, suffix), NamedGroups(t, n), suffix);
    NamedGroupsRebuilt(t, n);
  }

  lemma NamedHrefStarts(t: DataFileType, n: Date, suffix: string)
    ensures StartsWith(NamedHref(t, n, suffix), "./files")
  {
    assert NamedHref(t, n, suffix)[..7] == LinkDir[..7];
  }

  lemma NamedGroupsRebuilt(t: DataFileType, n: Date)
    ensures RebuiltName(NamedGroups(t, n)) == NamedFile(t, n, ".pdf")
  {
    var x := DmyFormat(n);
    assert x == x[..2] + "_" + x[3..5] + "_" + x[6..];
  }

  /** The extension part of a bulletin's file name. */
  function BulletinSuffix(t: DataFileType, d: Date): (suffix: string)
    ensures suffix == ".pdf" || suffix == "..pdf"
  {
    if t == Weekly && WeeklyRenaming(d).Some? then WeeklyRenaming(d).value.suffix else ".pdf"
  }

  lemma TailMatchesSuffixes()
    ensures TailMatches(".pdf") && TailMatches("..pdf")
  {
    var u := "..pdf";
    assert u[|u| - 1] != '\n' && u[|u| - 3..] == "pdf" && u[|u| - 4] == '.';
    assert FillerChar(u[0]);
  }

  /** The link of every bulletin on the site is a link to a file named for
      the date its name carries, with a suffix the pattern accepts; it is
      downloaded under its own name unless that suffix is not ".pdf". */
  lemma BulletinLinks(t: DataFileType, d: Date)
    ensures LinkDir + FileName(t, d) == NamedHref(t, NamedDate(t, d), BulletinSuffix(t, d))
    ensures TailMatches(BulletinSuffix(t, d))
    ensures MatchLink(LinkDir + FileName(t, d)) == Some(NamedGroups(t, NamedDate(t, d)))
    ensures LinkDate(NamedGroups(t, NamedDate(t, d))) == Ok(NamedDate(t, d))
    ensures BulletinSuffix(t, d) == ".pdf" ==> RebuiltName(NamedGroups(t, NamedDate(t, d))) == FileName(t, d)
  {
    TailMatchesSuffixes();
    MatchNamedHref(t, NamedDate(t, d), BulletinSuffix(t, d));
  }

  /** What `fetch_data` reads from a link: nothing when it has no href,
      the href does not start with "./files" or does not match; the error
      when the date does not exist; otherwise the groups and the date. */
  datatype Parsed = Ignored | Invalid(error: Error) | Dated(groups: LinkGroups, date: Date)

  function ParseHref(href: Option<string>): (p: Parsed)
    ensures p == Ignored <==> href.None? || !StartsWith(href.value, "./files") || MatchLink(href.value).None?
    ensures p.Invalid? <==> (href.Some? && StartsWith(href.value, "./files") && MatchLink(href.value).Some?
      && LinkDate(MatchLink(href.value).value).Err?)
    ensures p.Invalid? ==> p.error == ValueError
    ensures p.Dated? ==> (href.Some? && StartsWith(href.value, "./files") && MatchLink(href.value) == Some(p.groups)
      && LinkDate(p.groups) == Ok(p.date))
  {
    if href.None? || !StartsWith(href.value, "./files") then Ignored
    else match MatchLink(href.value)
      case None => Ignored
      case Some(g) =>
        match LinkDate(g)
        case Err(e) => Invalid(e)
        case Ok(d) => Dated(g, d)
  }

  /** A matching link with a date that exists is read as that date. */
  lemma ParseHrefDated(href: string, g: LinkGroups, d: Date)
    requires StartsWith(href, "./files") && MatchLink(href) == Some(g) && LinkDate(g) == Ok(d)
    ensures ParseHref(Some(href)) == Dated(g, d)
  {
  }

  /** What `fetch_data` does with a read link: the date it yields, if any,
      and the data file type's cache directory after it, keyed by the date
      whose ISO name the file has. An ignored link is skipped; a date that
      does not exist raises; a date the window leaves out is skipped; a file
      not in the directory is downloaded under the rebuilt name and stored,
      and a failed download skips the link. */
  datatype Step<B> = Step(outcome: Result<Option<Date>>, files: map<Date, B>)

  function FetchStep<B>(p: Parsed, keep: Date -> bool, files: map<Date, B>, download: string -> Option<B>): (r: Step<B>)
    ensures r.outcome.Err? <==> p.Invalid?
    ensures r.outcome.Err? ==> r.outcome.error == p.error && r.files == files
    ensures r.outcome == Ok(None) ==> r.files == files
    ensures r.outcome.Ok? && r.outcome.value.Some? ==>
      p.Dated? && r.outcome.value.value == p.date && keep(p.date) && p.date in r.files
    ensures p.Dated? && keep(p.date) && (p.date in files || download(RebuiltName(p.groups)).Some?)
      ==> r.outcome == Ok(Some(p.date))
    ensures forall q :: q in files ==> q in r.files && r.files[q] == files[q]
    ensures forall q :: q in r.files ==> q in files || r.outcome == Ok(Some(q))
  {
    match p
    case Ignored => Step(Ok(None), files)
    case Invalid(e) => Step(Err(e), files)
    case Dated(g, d) =>
      if !keep(d) then Step(Ok(None), files)
      else if d in files then Step(Ok(Some(d)), files)
      else match download(RebuiltName(g))
        case None => Step(Ok(None), files)
        case Some(b) => Step(Ok(Some(d)), files[d := b])
  }

  /** The dates of a run of `fetch_data` before it ends or raises, the cache
      directory after it, the error raised, if any, and for each date whether
      its file was downloaded by the run rather than found in the cache. */
  datatype Fetched<B> = Fetched(dates: seq<Date>, files: map<Date, B>, error: Option<Error>, downloaded: seq<bool>)

  /** The read links processed in order. */
  function FetchParsed<B>(ps: seq<Parsed>, keep: Date -> bool, files: map<Date, B>, download: string -> Option<B>): (r: Fetched<B>)
    ensures r.error.Some? ==> exists k :: 0 <= k < |ps| && ps[k] == Invalid(r.error.value)
    ensures |r.downloaded| == |r.dates|
    decreases |ps|
  {
    if ps == [] then Fetched([], files, None, [])
    else
      var step := FetchStep(ps[0], keep, files, download);
      match step.outcome
      case Err(e) => Fetched([], files, Some(e), [])
      case Ok(y) =>
        var rest := FetchParsed(ps[1..], keep, step.files, download);
        assert rest.error.Some? ==> exists k :: 0 <= k < |ps[1..]| && ps[1..][k] == Invalid(rest.error.value);
        Fetched((if y.Some? then [y.value] else []) + rest.dates, rest.files, rest.error,
                (if y.Some? then [y.value !in files] else []) + rest.downloaded)
  }

  /** Every date yielded passes the filter and its file is in the cache
      directory at the end. */
  lemma {:induction false} FetchParsedSound<B>(ps: seq<Parsed>, keep: Date -> bool, files: map<Date, B>,
                                              download: string -> Option<B>)
    ensures var r := FetchParsed(ps, keep, files, download);
      forall d :: d in r.dates ==> keep(d) && d in r.files
    decreases |ps|
  {
    if ps != [] {
      var step := FetchStep(ps[0], keep, files, download);
      if step.outcome.Ok? {
        FetchParsedSound(ps[1..], keep, step.files, download);
        FetchParsedKeeps(ps[1..], keep, step.files, download);
      }
    }
  }

  /** No file stored before is replaced. */
  lemma {:induction false} FetchParsedKeeps<B>(ps: seq<Parsed>, keep: Date -> bool, files: map<Date, B>, download: string -> Option<B>)
    ensures var r := FetchParsed(ps, keep, files, download);
      forall q :: q in files ==> q in r.files && r.files[q] == files[q]
    decreases |ps|
  {
    if ps != [] {
      var step := FetchStep(ps[0], keep, files, download);
      if step.outcome.Ok? {
        FetchParsedKeeps(ps[1..], keep, step.files, download);
      }
    }
  }

  /** A read link with a date in the window is yielded when the run does not
      raise and the file is stored or can be downloaded. */
  lemma {:induction false} FetchParsedDated<B>(ps: seq<Parsed>, keep: Date -> bool, files: map<Date, B>, download: string -> Option<B>,
                                              i: nat, g: LinkGroups, d: Date)
    requires i < |ps| && ps[i] == Dated(g, d) && keep(d)
    requires d in files || download(RebuiltName(g)).Some?
    requires FetchParsed(ps, keep, files, download).error.None?
    ensures d in FetchParsed(ps, keep, files, download).dates
    decreases i
  {
    var step := FetchStep(ps[0], keep, files, download);
    var r := FetchParsed(ps, keep, files, download);
    var rest := FetchParsed(ps[1..], keep, step.files, download);
    assert step.outcome.Ok?;
    var here := if step.outcome.value.Some? then [step.outcome.value.value] else [];
    assert r.dates == here + rest.dates;
    if i == 0 {
      assert d in here;
    } else {
      FetchParsedDated(ps[1..], keep, step.files, download, i - 1, g, d);
      assert d in rest.dates;
    }
  }

  /** The links of a page, last first. */
  function Reversed<T>(xs: seq<T>): (r: seq<T>)
    ensures |r| == |xs| && forall i :: 0 <= i < |xs| ==> r[i] == xs[|xs| - 1 - i]
  {
    seq(|xs|, i requires 0 <= i < |xs| => xs[|xs| - 1 - i])
  }

  /** Each link read. */
  function ParseAll(links: seq<Option<string>>): (ps: seq<Parsed>)
    ensures |ps| == |links| && forall i :: 0 <= i < |links| ==> ps[i] == ParseHref(links[i])
  {
    seq(|links|, i requires 0 <= i < |links| => ParseHref(links[i]))
  }

  /** The inclusive window of `fetch_data`'s date filter. */
  function Window(start: Option<Date>, end: Option<Date>): Date -> bool {
    (d: Date) => InWindow(d, start, end)
  }

  /** `DataFetcher.fetch_data`: the page's links in reverse order. */
  function FetchData<B>(links: seq<Option<string>>, start: Option<Date>, end: Option<Date>,
                        files: map<Date, B>, download: string -> Option<B>): (r: Fetched<B>)
    ensures r.error.Some? ==> r.error.value == ValueError
  {
    var ps := ParseAll(Reversed(links));
    var r := FetchParsed(ps, Window(start, end), files, download);
    assert r.error.Some? ==> exists k :: 0 <= k < |ps| && ps[k] == Invalid(r.error.value);
    r
  }

  /** The object yielded with a date: the path of its file in the cache, or
      the closed file object the path was written through. */
  datatype Handle = Path(path: string) | ClosedWriter(name: string)

  /** What `fetch_data` promises to yield: each date with the path of its
      file in the cache. */
  function Yielded<B>(ft: DataFileType, r: Fetched<B>): (ys: seq<(Date, Handle)>)
    ensures |ys| == |r.dates| && forall i :: 0 <= i < |ys| ==> ys[i] == (r.dates[i], Path(CachePath(ft, r.dates[i])))
  {
    seq(|r.dates|, i requires 0 <= i < |r.dates| => (r.dates[i], Path(CachePath(ft, r.dates[i]))))
  }

  /** What `fetch_data` yields as written: `with file.open('wb') as file`
      rebinds `file` to the writer, so a date whose file the run downloaded
      comes with the closed writer instead of the path. */
  function YieldedAsWritten<B>(ft: DataFileType, r: Fetched<B>): (ys: seq<(Date, Handle)>)
    ensures |ys| == |r.dates|
    ensures forall i :: 0 <= i < |ys| ==> ys[i].0 == r.dates[i] && ys[i].1.Path? == (i >= |r.downloaded| || !r.downloaded[i])
    ensures forall i :: 0 <= i < |ys| ==> ys[i] == Yielded(ft, r)[i] || ys[i] == (r.dates[i], ClosedWriter(CachePath(ft, r.dates[i])))
  {
    seq(|r.dates|, i requires 0 <= i < |r.dates| =>
      (r.dates[i], if i < |r.downloaded| && r.downloaded[i] then ClosedWriter(CachePath(ft, r.dates[i])) else Path(CachePath(ft, r.dates[i]))))
  }

  /** One link of a run: what its step yields comes first, then the rest of
      the run from the cache directory the step leaves. */
  lemma FetchParsedStep<B>(ps: seq<Parsed>, keep: Date -> bool, files: map<Date, B>, download: string -> Option<B>)
    requires ps != []
    ensures var step := FetchStep(ps[0], keep, files, download);
      var r := FetchParsed(ps, keep, files, download);
      step.outcome.Err? ==> r.dates == [] && r.downloaded == []
    ensures var step := FetchStep(ps[0], keep, files, download);
      var r := FetchParsed(ps, keep, files, download);
      var rest := FetchParsed(ps[1..], keep, step.files, download);
      step.outcome.Ok? ==>
        r.dates == (if step.outcome.value.Some? then [step.outcome.value.value] else []) + rest.dates
        && r.downloaded == (if step.outcome.value.Some? then [step.outcome.value.value !in files] else []) + rest.downloaded
        && r.files == rest.files && r.error == rest.error
  {
  }

  /** A date whose file is not in the cache when a run starts and which the
      run yields is, the first time, one the run downloaded. */
  lemma {:induction false} FetchParsedFresh<B>(ps: seq<Parsed>, keep: Date -> bool, files: map<Date, B>, download: string -> Option<B>, d: Date)
    requires d !in files && d in FetchParsed(ps, keep, files, download).dates
    ensures var r := FetchParsed(ps, keep, files, download);
      exists k :: 0 <= k < |r.dates| && r.dates[k] == d && r.downloaded[k]
    decreases |ps|
  {
    var r := FetchParsed(ps, keep, files, download);
    assert ps != [];
    var step := FetchStep(ps[0], keep, files, download);
    FetchParsedStep(ps, keep, files, download);
    assert step.outcome.Ok?;
    var y := step.outcome.value;
    var rest := FetchParsed(ps[1..], keep, step.files, download);
    if y == Some(d) {
      assert r.dates[0] == d && r.downloaded[0];
    } else {
      var here := if y.Some? then [y.value] else [];
      var marks := if y.Some? then [y.value !in files] else [];
      assert r.dates == here + rest.dates && r.downloaded == marks + rest.downloaded;
      assert d in rest.dates && d !in step.files;
      FetchParsedFresh(ps[1..], keep, step.files, download, d);
      MarkedShift(here, marks, rest.dates, rest.downloaded, d);
    }
  }

  /** A marked date stays marked behind a prefix of the same length. */
  lemma MarkedShift(here: seq<Date>, marks: seq<bool>, dates: seq<Date>, downloaded: seq<bool>, d: Date)
    requires |here| == |marks| && |dates| == |downloaded|
    requires exists k :: 0 <= k < |dates| && dates[k] == d && downloaded[k]
    ensures exists k :: 0 <= k < |here + dates| && (here + dates)[k] == d && (marks + downloaded)[k]
  {
    var k :| 0 <= k < |dates| && dates[k] == d && downloaded[k];
    assert (here + dates)[k + |here|] == d && (marks + downloaded)[k + |here|];
  }

  /** As written, a bulletin of the window that is not in the cache and
      downloads is yielded with the closed writer rather than its path. */
  lemma FetchDataYieldsWriter<B>(ft: DataFileType, links: seq<Option<string>>, start: Option<Date>, end: Option<Date>,
                                 files: map<Date, B>, download: string -> Option<B>, i: nat, href: string, g: LinkGroups, d: Date)
    requires i < |links| && links[i] == Some(href)
    requires StartsWith(href, "./files") && MatchLink(href) == Some(g) && LinkDate(g) == Ok(d) && InWindow(d, start, end)
    requires d !in files && download(RebuiltName(g)).Some?
    requires FetchData(links, start, end, files, download).error.None?
    ensures (d, ClosedWriter(CachePath(ft, d))) in YieldedAsWritten(ft, FetchData(links, start, end, files, download))
    ensures (d, ClosedWriter(CachePath(ft, d))) !in Yielded(ft, FetchData(links, start, end, files, download))
  {
    var r := FetchData(links, start, end, files, download);
    var ps := ParseAll(Reversed(links));
    assert r == FetchParsed(ps, Window(start, end), files, download);
    FetchDataHasDate(links, start, end, files, download, i, href, g, d);
    FetchParsedFresh(ps, Window(start, end), files, download, d);
    WriterYielded(ft, r, d);
  }

  /** A date the run downloaded comes with the closed writer as written and
      never with it in the corrected yield. */
  lemma WriterYielded<B>(ft: DataFileType, r: Fetched<B>, d: Date)
    requires |r.downloaded| == |r.dates|
    requires exists k :: 0 <= k < |r.dates| && r.dates[k] == d && r.downloaded[k]
    ensures (d, ClosedWriter(CachePath(ft, d))) in YieldedAsWritten(ft, r)
    ensures (d, ClosedWriter(CachePath(ft, d))) !in Yielded(ft, r)
  {
    var k :| 0 <= k < |r.dates| && r.dates[k] == d && r.downloaded[k];
    assert YieldedAsWritten(ft, r)[k] == (d, ClosedWriter(CachePath(ft, d)));
  }

  /** Every date `fetch_data` yields lies in the window and its file is in
      the cache directory. */
  lemma FetchDataSound<B>(links: seq<Option<string>>, start: Option<Date>, end: Option<Date>,
                          files: map<Date, B>, download: string -> Option<B>)
    ensures var r := FetchData(links, start, end, files, download);
      forall k :: 0 <= k < |r.dates| ==> InWindow(r.dates[k], start, end) && r.dates[k] in r.files
  {
    var ps, keep := ParseAll(Reversed(links)), Window(start, end);
    var r := FetchParsed(ps, keep, files, download);
    assert FetchData(links, start, end, files, download) == r;
    FetchParsedSound(ps, keep, files, download);
    forall k | 0 <= k < |r.dates|
      ensures InWindow(r.dates[k], start, end) && r.dates[k] in r.files
    {
      assert r.dates[k] in r.dates;
      assert keep(r.dates[k]);
    }
  }

  /** `fetch_data` replaces no file stored before. */
  lemma FetchDataKeeps<B>(links: seq<Option<string>>, start: Option<Date>, end: Option<Date>,
                          files: map<Date, B>, download: string -> Option<B>)
    ensures var r := FetchData(links, start, end, files, download);
      forall q :: q in files ==> q in r.files && r.files[q] == files[q]
  {
    FetchParsedKeeps(ParseAll(Reversed(links)), Window(start, end), files, download);
  }

  /** The date of a matching link in the window, whose file is cached or
      downloads, is among the dates of a run that does not raise. */
  lemma FetchDataHasDate<B>(links: seq<Option<string>>, start: Option<Date>, end: Option<Date>,
                            files: map<Date, B>, download: string -> Option<B>, i: nat, href: string, g: LinkGroups, d: Date)
    requires i < |links| && links[i] == Some(href)
    requires StartsWith(href, "./files") && MatchLink(href) == Some(g) && LinkDate(g) == Ok(d) && InWindow(d, start, end)
    requires d in files || download(RebuiltName(g)).Some?
    requires FetchData(links, start, end, files, download).error.None?
    ensures d in FetchData(links, start, end, files, download).dates
  {
    var rev := Reversed(links);
    assert rev[|links| - 1 - i] == Some(href);
    ParseHrefDated(href, g, d);
    FetchDataDated(rev, start, end, files, download, |links| - 1 - i, g, d);
  }

  /** A link on the page that matches with a date in the window is yielded
      with the date and its cache path, when the run does not raise and the
      file is stored or can be downloaded under the rebuilt name. */
  lemma FetchDataMatched<B>(ft: DataFileType, links: seq<Option<string>>, start: Option<Date>, end: Option<Date>,
                            files: map<Date, B>, download: string -> Option<B>, i: nat, href: string, g: LinkGroups, d: Date)
    requires i < |links| && links[i] == Some(href)
    requires StartsWith(href, "./files") && MatchLink(href) == Some(g) && LinkDate(g) == Ok(d) && InWindow(d, start, end)
    requires d in files || download(RebuiltName(g)).Some?
    requires FetchData(links, start, end, files, download).error.None?
    ensures (d, Path(CachePath(ft, d))) in Yielded(ft, FetchData(links, start, end, files, download))
  {
    var r := FetchData(links, start, end, files, download);
    FetchDataHasDate(links, start, end, files, download, i, href, g, d);
    YieldedDate(ft, r, d);
  }

  /** A link read as a date in the window is yielded when the run does not
      raise and the file is stored or can be downloaded. */
  lemma FetchDataDated<B>(rev: seq<Option<string>>, start: Option<Date>, end: Option<Date>,
                          files: map<Date, B>, download: string -> Option<B>, k: nat, g: LinkGroups, d: Date)
    requires k < |rev| && ParseHref(rev[k]) == Dated(g, d) && InWindow(d, start, end)
    requires d in files || download(RebuiltName(g)).Some?
    requires FetchParsed(ParseAll(rev), Window(start, end), files, download).error.None?
    ensures d in FetchParsed(ParseAll(rev), Window(start, end), files, download).dates
  {
    var keep := Window(start, end);
    assert keep(d);
    FetchParsedDated(ParseAll(rev), keep, files, download, k, g, d);
  }

  /** A date yielded comes with the path of its file. */
  lemma YieldedDate<B>(ft: DataFileType, r: Fetched<B>, d: Date)
    requires d in r.dates
    ensures (d, Path(CachePath(ft, d))) in Yielded(ft, r)
  {
    var j :| 0 <= j < |r.dates| && r.dates[j] == d;
    assert Yielded(ft, r)[j] == (d, Path(CachePath(ft, d)));
  }

  /** In particular every link on the page to a file named for a date in
      the window is yielded with that date and its cache path. */
  lemma FetchDataNamed<B>(ft: DataFileType, links: seq<Option<string>>, start: Option<Date>, end: Option<Date>,
                          files: map<Date, B>, download: string -> Option<B>, i: nat, t: DataFileType, n: Date, suffix: string)
    requires i < |links| && links[i] == Some(NamedHref(t, n, suffix)) && TailMatches(suffix) && InWindow(n, start, end)
    requires n in files || download(NamedFile(t, n, ".pdf")).Some?
    requires FetchData(links, start, end, files, download).error.None?
    ensures (n, Path(CachePath(ft, n))) in Yielded(ft, FetchData(links, start, end, files, download))
  {
    var href, g := NamedHref(t, n, suffix), NamedGroups(t, n);
    assert StartsWith(href, "./files") && MatchLink(href) == Some(g) && LinkDate(g) == Ok(n)
      && RebuiltName(g) == NamedFile(t, n, ".pdf") by {
      MatchNamedHref(t, n, suffix);
      NamedHrefStarts(t, n, suffix);
    }
    FetchDataMatched(ft, links, start, end, files, download, i, href, g, n);
  }
}
