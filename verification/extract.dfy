/** The line-oriented extractor of the daily country bulletin.

    Every line of the PDF text has its whitespace collapsed; a line that starts
    with the label of a fuel type carries, after the label, two to four tokens
    that together spell the number of stations and the average price. The label
    regular expressions are not modelled: a `Labels` oracle says, for a fuel type
    and a collapsed line, where the label's match at the start of the line ends.
 */
module Extract {
  import opened Options
  import opened Text
  import opened Numbers
  import opened Enums
  import opened Records

  /** For a fuel type and a collapsed line, the end of its label's match at the start of the line, if it matches. */
  type Labels = (FuelType, string) -> Option<nat>

  /** The label search: the fuel types are tried in the order given and the first whose label matches wins. */
  function MatchLabel(line: string, labels: Labels, fs: seq<FuelType>): (r: Option<(FuelType, nat)>)
    ensures r.None? <==> forall k :: 0 <= k < |fs| ==> labels(fs[k], line).None?
    ensures r.Some? ==> exists k :: (0 <= k < |fs| && fs[k] == r.value.0 && labels(fs[k], line) == Some(r.value.1)
      && forall j :: 0 <= j < k ==> labels(fs[j], line).None?)
  {
    if fs == [] then None
    else match labels(fs[0], line)
      case Some(end) => Some((fs[0], end))
      case None =>
        var r := MatchLabel(line, labels, fs[1..]);
        assert forall k :: 0 < k < |fs| ==> fs[k] == fs[1..][k - 1];
        r
  }

  /** The number-of-stations text and the price text a line's tokens are combined into. */
  datatype Tokens = Tokens(stations: string, price: string)

  function Concat(parts: seq<string>): string {
    if parts == [] then "" else parts[0] + Concat(parts[1..])
  }

  /** The combination rule: two tokens are stations and price; of three, the
      last two are the price when the middle one holds a comma, else the first
      two are the stations when the first holds a point; four tokens are two
      for the stations and two for the price. Anything else is no data. */
  function CombineTokens(parts: seq<string>): (t: Option<Tokens>)
    ensures t.Some? <==> |parts| == 2 || |parts| == 4 || (|parts| == 3 && (',' in parts[1] || '.' in parts[0]))
    ensures t.Some? ==> t.value.stations + t.value.price == Concat(parts)
    ensures t.Some? ==> t.value.stations == parts[0] || t.value.stations == parts[0] + parts[1]
    ensures t.Some? ==> t.value.price == parts[|parts| - 1] || t.value.price == parts[|parts| - 2] + parts[|parts| - 1]
  {
    if |parts| == 2 then
      assert Concat(parts[2..]) == "";
      assert Concat(parts) == parts[0] + (parts[1] + "");
      Some(Tokens(parts[0], parts[1]))
    else if |parts| == 3 then
      assert Concat(parts[3..]) == "";
      assert Concat(parts[2..]) == parts[2] + "";
      assert Concat(parts) == parts[0] + (parts[1] + (parts[2] + ""));
      if ',' in parts[1] then Some(Tokens(parts[0], parts[1] + parts[2]))
      else if '.' in parts[0] then Some(Tokens(parts[0] + parts[1], parts[2]))
      else None
    else if |parts| == 4 then
      assert Concat(parts[4..]) == "";
      assert Concat(parts[3..]) == parts[3] + "";
      assert Concat(parts[2..]) == parts[2] + (parts[3] + "");
      assert Concat(parts) == parts[0] + (parts[1] + (parts[2] + (parts[3] + "")));
      Some(Tokens(parts[0] + parts[1], parts[2] + parts[3]))
    else None
  }

  /** The spreadsheet's division-by-zero mark, which some bulletins print instead of a price. */
  const DivisionByZeroMark: string := "#ΔΙΑΙΡ./0!"

  /** A dash is no number; otherwise `int()` of the text with its '.' separators removed. */
  function StationsValue(s: string): (r: Result<Option<int>>)
    ensures r.Ok? && r.value.None? <==> s == "-"
    ensures r.Err? ==> r.error == ValueError
  {
    if s == "-" then Ok(None)
    else
      var n :- ParseInt(RemoveChar(s, '.'));
      Ok(Some(n))
  }

  /** A dash or the division-by-zero mark is no price; otherwise `decimal.Decimal` of the text with ',' read as '.'. */
  function PriceValue(s: string): (r: Result<Option<Decimal>>)
    ensures r.Ok? && r.value.None? <==> s == "-" || s == DivisionByZeroMark
    ensures r.Err? ==> r.error == InvalidOperation
  {
    if s == "-" || s == DivisionByZeroMark then Ok(None)
    else
      var d :- ParseDecimal(ReplaceChar(s, ',', "."));
      Ok(Some(d))
  }

  /** A record is kept when it has a non-zero number of stations or a non-zero price. */
  predicate Worthwhile(stations: Option<int>, price: Option<Decimal>) {
    (stations.Some? && stations.value != 0) || (price.Some? && DecimalTruthy(price.value))
  }

  /** The fuel type of a labelled line and the two texts its tokens combine into;
      None when no label matches or the tokens cannot be combined. */
  function LineTokens(line: string, labels: Labels): (r: Option<(FuelType, Tokens)>)
    ensures r.Some? ==> (MatchLabel(CollapseSpaces(line), labels, AllFuelTypes()).Some?
      && r.value.0 == MatchLabel(CollapseSpaces(line), labels, AllFuelTypes()).value.0)
  {
    var collapsed := CollapseSpaces(line);
    match MatchLabel(collapsed, labels, AllFuelTypes())
    case None => None
    case Some(m) => TokensAfter(collapsed, m.0, m.1)
  }

  /** The fuel type with the tokens the words after its label combine into. */
  function TokensAfter(collapsed: string, f: FuelType, end: nat): (r: Option<(FuelType, Tokens)>)
    ensures r.Some? ==> r.value.0 == f
  {
    match CombineTokens(Words(Strip(Slice(collapsed, end + 1, |collapsed|))))
    case None => None
    case Some(t) => Some((f, t))
  }

  /** The record of a fuel type's two texts: both must convert, and the record must be worth keeping. */
  function TokensRecord(f: FuelType, t: Tokens): Option<Record>
  {
    match (StationsValue(t.stations), PriceValue(t.price))
    case (Ok(n), Ok(p)) => if Worthwhile(n, p) then Some(CountryRecord(f, n, p)) else None
    case _ => None
  }

  /** The record a single line of the bulletin yields; None when the line is
      skipped: no label, an unusable token count, a failed conversion, or
      nothing worth keeping. */
  function LineRecord(line: string, labels: Labels): (r: Option<Record>)
    ensures r.Some? ==> r.value.CountryRecord? && Worthwhile(r.value.stations, r.value.price)
    ensures r.Some? ==> (MatchLabel(CollapseSpaces(line), labels, AllFuelTypes()).Some?
      && r.value.fuelType == MatchLabel(CollapseSpaces(line), labels, AllFuelTypes()).value.0)
    ensures r.Some? <==> (LineTokens(line, labels).Some?
      && StationsValue(LineTokens(line, labels).value.1.stations).Ok?
      && PriceValue(LineTokens(line, labels).value.1.price).Ok?
      && Worthwhile(StationsValue(LineTokens(line, labels).value.1.stations).value,
                    PriceValue(LineTokens(line, labels).value.1.price).value))
    ensures r.Some? ==> (r.value.stations == StationsValue(LineTokens(line, labels).value.1.stations).value
      && r.value.price == PriceValue(LineTokens(line, labels).value.1.price).value)
  {
    match LineTokens(line, labels)
    case None => None
    case Some((f, t)) => TokensRecord(f, t)
  }

  /** The records of a sequence of lines, in line order. */
  function ExtractLines(lines: seq<string>, labels: Labels): (rs: seq<Record>)
    ensures |rs| <= |lines|
  {
    FilterMap(lines, line => LineRecord(line, labels))
  }

  /** `extract_daily_country_data`. */
  function DailyCountryData(text: string, labels: Labels): (rs: seq<Record>)
    ensures |rs| <= |SplitLines(text)|
  {
    ExtractLines(SplitLines(text), labels)
  }

  /** Lines are handled one at a time: the records of two blocks of lines are
      the records of the first block followed by those of the second. */
  lemma ExtractLinesConcat(a: seq<string>, b: seq<string>, labels: Labels)
    ensures ExtractLines(a + b, labels) == ExtractLines(a, labels) + ExtractLines(b, labels)
  {
    FilterMapConcat(a, b, line => LineRecord(line, labels));
  }

  /** A record is extracted exactly when some line yields it. */
  lemma ExtractLinesMembers(lines: seq<string>, labels: Labels, r: Record)
    ensures r in ExtractLines(lines, labels) <==> exists k :: 0 <= k < |lines| && LineRecord(lines[k], labels) == Some(r)
  {
    FilterMapMembers(lines, line => LineRecord(line, labels), r);
  }

  /** Every extracted record is a country record worth keeping. */
  lemma ExtractLinesKept(lines: seq<string>, labels: Labels, r: Record)
    requires r in ExtractLines(lines, labels)
    ensures r.CountryRecord? && Worthwhile(r.stations, r.price)
  {
    ExtractLinesMembers(lines, labels, r);
  }

  /** A bulletin line "label stations price", with the stations written
      without separator and the price with a decimal comma, yields the record
      of those numbers. */
  lemma RenderedLine(line: string, tag: string, labels: Labels, f: FuelType, n: nat, a: string, b: string)
    requires AllDigits(a) && AllDigits(b) && a != [] && n != 0
    requires CollapseSpaces(line) == tag + " " + (NatToString(n) + " " + (a + "," + b))
    requires MatchLabel(CollapseSpaces(line), labels, AllFuelTypes()) == Some((f, |tag|))
    ensures LineRecord(line, labels) == Some(CountryRecord(f, Some(n), Some(Decimal(false, DigitsValue(a + b), -|b|))))
  {
    var collapsed := CollapseSpaces(line);
    var s := NatToString(n);
    var p := a + "," + b;
    NatToStringValue(n);
    DigitsNoSpace(s);
    CommaPriceNoSpace(a, b);
    TwoTokens(tag, s, p);
    StationsOfDigits(s);
    PriceOfComma(a, b);
    LineOfTwoTokens(line, labels, f, |tag|, s, p);
  }

  /** A labelled line whose remaining text is two tokens combines them as stations and price. */
  lemma LineOfTwoTokens(line: string, labels: Labels, f: FuelType, end: nat, s: string, p: string)
    requires MatchLabel(CollapseSpaces(line), labels, AllFuelTypes()) == Some((f, end))
    requires var c := CollapseSpaces(line); Words(Strip(Slice(c, end + 1, |c|))) == [s, p]
    ensures LineTokens(line, labels) == Some((f, Tokens(s, p)))
  {
    var c := CollapseSpaces(line);
    assert LineTokens(line, labels) == TokensAfter(c, f, end);
    CombineTwo(s, p);
  }

  /** Two words are the stations and the price. */
  lemma CombineTwo(s: string, p: string)
    ensures CombineTokens([s, p]) == Some(Tokens(s, p))
  {
  }

  /** The text after a label and a space, holding two space-free words separated by a space, splits into those words. */
  lemma TwoTokens(tag: string, s: string, p: string)
    requires s != [] && p != [] && NoSpace(s) && NoSpace(p)
    ensures var line := tag + " " + (s + " " + p);
      Words(Strip(Slice(line, |tag| + 1, |line|))) == [s, p]
  {
    var line := tag + " " + (s + " " + p);
    var rest := s + " " + p;
    assert Slice(line, |tag| + 1, |line|) == rest;
    assert Strip(rest) == rest by {
      assert rest[0] == s[0];
      assert rest[|rest| - 1] == p[|p| - 1];
      StripUnspaced(rest);
    }
    assert Join([s, p], " ") == rest;
    WordsOfJoin([s, p]);
  }

  /** A price with a decimal comma holds no whitespace. */
  lemma CommaPriceNoSpace(a: string, b: string)
    requires AllDigits(a) && AllDigits(b)
    ensures NoSpace(a + "," + b)
  {
    var p := a + "," + b;
    DigitsNoSpace(a);
    DigitsNoSpace(b);
    forall i | 0 <= i < |p|
      ensures !IsSpace(p[i])
    {
      if i < |a| {
        assert p[i] == a[i];
      } else if i > |a| {
        assert p[i] == b[i - |a| - 1];
      }
    }
  }

  /** A price written with a decimal comma is read with that many decimal places. */
  lemma PriceOfComma(a: string, b: string)
    requires AllDigits(a) && AllDigits(b) && a != []
    ensures PriceValue(a + "," + b) == Ok(Some(Decimal(false, DigitsValue(a + b), -|b|)))
  {
    var p := a + "," + b;
    NoSymbols(a);
    NoSymbols(b);
    assert ReplaceChar(p, ',', ".") == a + "." + b by {
      ReplaceAround(a, ",", b, ',', ".");
      assert ReplaceChar(",", ',', ".") == ".";
    }
    PointedDecimal(a, b);
    assert p != "-" && p != DivisionByZeroMark by {
      assert p[0] == a[0] && IsDigit(a[0]);
      assert DivisionByZeroMark[0] == '#';
    }
  }

  /** A zero number of stations without a price is not worth a record. */
  lemma ZeroWithoutPriceDropped(f: FuelType)
    ensures TokensRecord(f, Tokens("0", "-")) == None
  {
    assert AllDigits("0") by {
      assert IsDigit("0"[0]);
    }
    StationsOfDigits("0");
  }

  /** A digit string holds no whitespace. */
  lemma DigitsNoSpace(s: string)
    requires AllDigits(s)
    ensures NoSpace(s)
  {
    forall i | 0 <= i < |s|
      ensures !IsSpace(s[i])
    {
      assert IsDigit(s[i]);
    }
  }

  /** Digits without separator are read as the number they spell. */
  lemma StationsOfDigits(s: string)
    requires AllDigits(s) && s != []
    ensures StationsValue(s) == Ok(Some(DigitsValue(s) as int))
  {
    DigitsWithoutPoint(s);
    RemoveAbsentChar(s, '.');
    ParseIntOfDigits(s);
    assert s != "-" by {
      assert IsDigit(s[0]);
    }
  }

  // ---------------------------------------------------------------------
  // extract_daily_prefecture_data
  // ---------------------------------------------------------------------

  /** The five fuel types whose labels the daily prefecture extractor searches for. */
  function PrefectureLabelTypes(): seq<FuelType> {
    [Unleaded95, Unleaded100, Super, Diesel, Gas]
  }

  /** `extract_daily_prefecture_data`: it reports whether every label was
      found (the first component) and produces no records whether or not they all were. */
  function DailyPrefectureData(text: string, found: (FuelType, string) -> bool): (r: (bool, seq<Record>))
    ensures r.0 <==> forall k :: 0 <= k < |PrefectureLabelTypes()| ==> found(PrefectureLabelTypes()[k], text)
    ensures r.1 == []
  {
    var missing := exists k :: 0 <= k < |PrefectureLabelTypes()| && !found(PrefectureLabelTypes()[k], text);
    (!missing, [])
  }
}
