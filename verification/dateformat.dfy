/** Textual forms of dates used by the backend: the ISO 8601 extended
    calendar form YYYY-MM-DD (section 5.2.1.1 of ISO 8601:2004, as
    `date.isoformat()` writes it) and the DD_MM_YYYY form of the bulletin file
    names (`format(date, '%d_%m_%Y')`), with the readers the code applies to
    them.
 */
module DateFormat {
  import opened Options
  import opened Text
  import opened Calendar

  /** `date.isoformat()`. */
  function IsoFormat(d: Date): (s: string)
    ensures |s| == 10 && s[4] == '-' && s[7] == '-'
    ensures AllDigits(s[..4]) && AllDigits(s[5..7]) && AllDigits(s[8..])
    ensures DigitsValue(s[..4]) == d.year && DigitsValue(s[5..7]) == d.month && DigitsValue(s[8..]) == d.day
  {
    PadFields(d);
    var s := PadNat(d.year, 4) + "-" + PadNat(d.month, 2) + "-" + PadNat(d.day, 2);
    assert s[..4] == PadNat(d.year, 4);
    assert s[5..7] == PadNat(d.month, 2);
    assert s[8..] == PadNat(d.day, 2);
    s
  }

  /** `format(d, '%d_%m_%Y')`, with the year written on four digits. */
  function DmyFormat(d: Date): (s: string)
    ensures |s| == 10 && s[2] == '_' && s[5] == '_'
    ensures AllDigits(s[..2]) && AllDigits(s[3..5]) && AllDigits(s[6..])
    ensures DigitsValue(s[..2]) == d.day && DigitsValue(s[3..5]) == d.month && DigitsValue(s[6..]) == d.year
  {
    PadFields(d);
    var s := PadNat(d.day, 2) + "_" + PadNat(d.month, 2) + "_" + PadNat(d.year, 4);
    assert s[..2] == PadNat(d.day, 2);
    assert s[3..5] == PadNat(d.month, 2);
    assert s[6..] == PadNat(d.year, 4);
    s
  }

  /** The DD_MM_YYYY form holds digits and underscores only. */
  lemma DmyFormatChars(d: Date)
    ensures forall i :: 0 <= i < 10 ==> IsDigit(DmyFormat(d)[i]) || DmyFormat(d)[i] == '_'
  {
    var s := DmyFormat(d);
    assert forall i :: 0 <= i < 2 ==> s[..2][i] == s[i];
    assert forall i :: 3 <= i < 5 ==> s[3..5][i - 3] == s[i];
    assert forall i :: 6 <= i < 10 ==> s[6..][i - 6] == s[i];
  }

  lemma PadFields(d: Date)
    ensures |PadNat(d.year, 4)| == 4 && DigitsValue(PadNat(d.year, 4)) == d.year
    ensures |PadNat(d.month, 2)| == 2 && DigitsValue(PadNat(d.month, 2)) == d.month
    ensures |PadNat(d.day, 2)| == 2 && DigitsValue(PadNat(d.day, 2)) == d.day
  {
    assert Pow10(2) == 100;
    assert Pow10(4) == 10000;
    PadNatSpec(d.year, 4);
    PadNatSpec(d.month, 2);
    PadNatSpec(d.day, 2);
  }

  /** Different dates have different ISO forms. */
  lemma IsoFormatInjective(a: Date, b: Date)
    requires IsoFormat(a) == IsoFormat(b)
    ensures a == b
  {
  }

  lemma DmyFormatInjective(a: Date, b: Date)
    requires DmyFormat(a) == DmyFormat(b)
    ensures a == b
  {
  }

  // ---------------------------------------------------------------------
  // The file-name pattern YYYY-MM-DD.pdf of the bulletin parser
  // ---------------------------------------------------------------------

  /** The text of the year, month and day groups of a matched pattern. */
  datatype DateGroups = DateGroups(year: string, month: string, day: string)

  /** Anchored match of the pattern `(\d{4})-(\d{2})-(\d{2}).pdf$` on a file name:
      the dot matches any character but a newline, and `$` also matches before a
      final newline. */
  function MatchIsoFileName(name: string): (m: Option<DateGroups>)
    ensures m.Some? ==> |m.value.year| == 4 && |m.value.month| == 2 && |m.value.day| == 2
    ensures m.Some? ==> AllDigits(m.value.year) && AllDigits(m.value.month) && AllDigits(m.value.day)
  {
    if (|name| == 14 || (|name| == 15 && name[14] == '\n'))
      && AllDigits(name[..4]) && name[4] == '-' && AllDigits(name[5..7]) && name[7] == '-'
      && AllDigits(name[8..10]) && name[10] != '\n' && name[11..14] == "pdf"
    then Some(DateGroups(name[..4], name[5..7], name[8..10]))
    else None
  }

  /** `datetime.date(int(year), int(month), int(day))` on matched groups. */
  function GroupsDate(g: DateGroups): Result<Date>
    requires AllDigits(g.year) && AllDigits(g.month) && AllDigits(g.day)
  {
    MakeDate(DigitsValue(g.year), DigitsValue(g.month), DigitsValue(g.day))
  }

  /** The name under which a date's bulletin is stored is read back as that date. */
  lemma IsoFileNameRoundTrip(d: Date)
    ensures MatchIsoFileName(IsoFormat(d) + ".pdf").Some?
    ensures GroupsDate(MatchIsoFileName(IsoFormat(d) + ".pdf").value) == Ok(d)
  {
    var iso := IsoFormat(d);
    var name := iso + ".pdf";
    assert name[..4] == iso[..4];
    assert name[5..7] == iso[5..7];
    assert name[8..10] == iso[8..];
    assert name[11..14] == "pdf";
  }

  // ---------------------------------------------------------------------
  // The unanchored search for DD_MM_YYYY in a file name
  // ---------------------------------------------------------------------

  /** The pattern `(\d{2})_(\d{2})_(\d{4})` matches at index i. */
  predicate DmyAt(s: string, i: nat) {
    i + 10 <= |s| && AllDigits(s[i..i + 2]) && s[i + 2] == '_' && AllDigits(s[i + 3..i + 5])
    && s[i + 5] == '_' && AllDigits(s[i + 6..i + 10])
  }

  /** `re.search`: the leftmost index at which the pattern matches, searching from `from`. */
  function SearchDmy(s: string, from: nat): (r: Option<nat>)
    ensures r.Some? ==> from <= r.value && DmyAt(s, r.value)
    ensures r.Some? ==> forall j :: from <= j < r.value ==> !DmyAt(s, j)
    ensures r.None? ==> forall j :: from <= j ==> !DmyAt(s, j)
    decreases |s| - from
  {
    if from + 10 > |s| then None
    else if DmyAt(s, from) then Some(from)
    else SearchDmy(s, from + 1)
  }

  /** The groups of the leftmost DD_MM_YYYY occurrence in s, if any. */
  function FindDmy(s: string): (m: Option<DateGroups>)
    ensures m.Some? ==> AllDigits(m.value.year) && AllDigits(m.value.month) && AllDigits(m.value.day)
    ensures m.None? <==> forall j :: !DmyAt(s, j)
  {
    match SearchDmy(s, 0)
    case None => None
    case Some(i) => Some(DateGroups(s[i + 6..i + 10], s[i + 3..i + 5], s[i..i + 2]))
  }

  /** Behind a digit-free prefix, the DD_MM_YYYY form of a date is found and read back as that date. */
  lemma FindDmyAfterPrefix(p: string, d: Date, rest: string)
    requires forall k :: 0 <= k < |p| ==> !IsDigit(p[k])
    ensures FindDmy(p + DmyFormat(d) + rest).Some?
    ensures GroupsDate(FindDmy(p + DmyFormat(d) + rest).value) == Ok(d)
  {
    var f := DmyFormat(d);
    var s := p + f + rest;
    assert s[|p|..|p| + 10] == f;
    assert s[|p|..|p| + 2] == f[..2];
    assert s[|p| + 3..|p| + 5] == f[3..5];
    assert s[|p| + 6..|p| + 10] == f[6..];
    assert DmyAt(s, |p|);
    forall j | 0 <= j < |p|
      ensures !DmyAt(s, j)
    {
      assert s[j] == p[j] && s[j] == s[j..j + 2][0];
    }
    var i := SearchDmy(s, 0);
    assert i == Some(|p|);
  }
}
