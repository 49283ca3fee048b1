/** The closed registries of the backend: fuel types, prefectures, the kinds of
    data a bulletin holds and the kinds of bulletin file, with the dates on
    which each bulletin is published and the name and link of its file.
 */
module Enums {
  import opened Options
  import opened Text
  import opened Calendar
  import opened DateFormat

  /** The first member of xs whose name is the given one. */
  function FindNamed<T>(xs: seq<T>, nameOf: T -> string, name: string): (r: Option<T>)
    ensures r.Some? ==> r.value in xs && nameOf(r.value) == name
    ensures r.None? <==> forall i :: 0 <= i < |xs| ==> nameOf(xs[i]) != name
  {
    if xs == [] then None
    else if nameOf(xs[0]) == name then Some(xs[0])
    else FindNamed(xs[1..], nameOf, name)
  }

  /** A fuel type whose price the bulletins report. */
  datatype FuelType =
    | Unleaded95
    | Unleaded100
    | Super
    | Diesel
    | DieselHeating
    | Gas

  /** The members in declaration order, as iterating the enum yields them. */
  function AllFuelTypes(): seq<FuelType> {
    seq(6, i requires 0 <= i < 6 => FuelTypeAt(i))
  }

  /** The member declared at position i. */
  function FuelTypeAt(i: nat): FuelType
    requires i < 6
  {
    match i
    case 0 => Unleaded95
    case 1 => Unleaded100
    case 2 => Super
    case 3 => Diesel
    case 4 => DieselHeating
    case _ => Gas
  }

  /** The position of a member in the declaration. */
  function FuelTypeIndex(x: FuelType): nat {
    match x
    case Unleaded95 => 0
    case Unleaded100 => 1
    case Super => 2
    case Diesel => 3
    case DieselHeating => 4
    case Gas => 5
  }

  /** The member name, which is also the member's value. */
  function FuelTypeName(x: FuelType): string {
    match x
    case Unleaded95 => "UNLEADED_95"
    case Unleaded100 => "UNLEADED_100"
    case Super => "SUPER"
    case Diesel => "DIESEL"
    case DieselHeating => "DIESEL_HEATING"
    case Gas => "GAS"
  }

  function FuelTypeDescription(x: FuelType): string {
    match x
    case Unleaded95 => "Αμόλυβδη 95"
    case Unleaded100 => "Αμόλυβδη 100"
    case Super => "Super"
    case Diesel => "Diesel"
    case DieselHeating => "Diesel Θέρμανσης"
    case Gas => "Υγραέριο"
  }

  /** `FuelType[name]`: the member with that name, `KeyError` otherwise. */
  function FuelTypeFromName(name: string): (r: Result<FuelType>)
    ensures r.Ok? ==> FuelTypeName(r.value) == name
    ensures r.Err? ==> r.error == KeyError
  {
    match FindNamed(AllFuelTypes(), FuelTypeName, name)
    case Some(x) => Ok(x)
    case None => Err(KeyError)
  }

  /** The declaration lists every member exactly once: positions and members correspond. */
  lemma FuelTypeOrder()
    ensures |AllFuelTypes()| == 6
    ensures forall i :: 0 <= i < |AllFuelTypes()| ==> FuelTypeIndex(AllFuelTypes()[i]) == i
  {
  }

  /** Every member sits in the declaration at its own position. */
  lemma FuelTypeListed(x: FuelType)
    ensures FuelTypeIndex(x) < |AllFuelTypes()| && AllFuelTypes()[FuelTypeIndex(x)] == x
  {
  }

  /** Looking a member up by its name gives back that member. */
  lemma FuelTypeNameRoundTrip(x: FuelType)
    ensures FuelTypeFromName(FuelTypeName(x)).Ok? && FuelTypeFromName(FuelTypeName(x)).value == x
  {
    FuelTypeListed(x);
    var r := FindNamed(AllFuelTypes(), FuelTypeName, FuelTypeName(x));
    assert FuelTypeName(AllFuelTypes()[FuelTypeIndex(x)]) == FuelTypeName(x);
    FuelTypeNamesDistinct(r.value, x);
  }

  /** No two members share a name. */
  lemma FuelTypeNamesDistinct(x: FuelType, y: FuelType)
    requires FuelTypeName(x) == FuelTypeName(y)
    ensures x == y
  {
  }

  /** A Greek prefecture. */
  datatype Prefecture =
    | Attica
    | AetoliaAcarnania
    | Argolis
    | Arkadias
    | Arta
    | Achaea
    | Boeotia
    | Grevena
    | Drama
    | Dodecanese
    | Evros
    | Euboea
    | Evrytania
    | Zakynthos
    | Elis
    | Imathia
    | Heraklion
    | Thesprotia
    | Thessaloniki
    | Ioannina
    | Kavala
    | Karditsa
    | Kastoria
    | Kerkyra
    | Cephalonia
    | Kilkis
    | Kozani
    | Corinthia
    | Cyclades
    | Laconia
    | Larissa
    | Lasithi
    | Lesbos
    | Lefkada
    | Magnesia
    | Messenia
    | Xanthi
    | Pella
    | Pieria
    | Preveza
    | Rethymno
    | Rhodope
    | Samos
    | Serres
    | Trikala
    | Phthiotis
    | Florina
    | Phocis
    | Chalkidiki
    | Chania
    | Chios

  /** The members in declaration order, as iterating the enum yields them. */
  function AllPrefectures(): seq<Prefecture> {
    seq(51, i requires 0 <= i < 51 => PrefectureAt(i))
  }

  /** The member declared at position i. */
  function PrefectureAt(i: nat): Prefecture
    requires i < 51
  {
    match i
    case 0 => Attica
    case 1 => AetoliaAcarnania
    case 2 => Argolis
    case 3 => Arkadias
    case 4 => Arta
    case 5 => Achaea
    case 6 => Boeotia
    case 7 => Grevena
    case 8 => Drama
    case 9 => Dodecanese
    case 10 => Evros
    case 11 => Euboea
    case 12 => Evrytania
    case 13 => Zakynthos
    case 14 => Elis
    case 15 => Imathia
    case 16 => Heraklion
    case 17 => Thesprotia
    case 18 => Thessaloniki
    case 19 => Ioannina
    case 20 => Kavala
    case 21 => Karditsa
    case 22 => Kastoria
    case 23 => Kerkyra
    case 24 => Cephalonia
    case 25 => Kilkis
    case 26 => Kozani
    case 27 => Corinthia
    case 28 => Cyclades
    case 29 => Laconia
    case 30 => Larissa
    case 31 => Lasithi
    case 32 => Lesbos
    case 33 => Lefkada
    case 34 => Magnesia
    case 35 => Messenia
    case 36 => Xanthi
    case 37 => Pella
    case 38 => Pieria
    case 39 => Preveza
    case 40 => Rethymno
    case 41 => Rhodope
    case 42 => Samos
    case 43 => Serres
    case 44 => Trikala
    case 45 => Phthiotis
    case 46 => Florina
    case 47 => Phocis
    case 48 => Chalkidiki
    case 49 => Chania
    case _ => Chios
  }

  /** The position of a member in the declaration. */
  function PrefectureIndex(x: Prefecture): nat {
    match x
    case Attica => 0
    case AetoliaAcarnania => 1
    case Argolis => 2
    case Arkadias => 3
    case Arta => 4
    case Achaea => 5
    case Boeotia => 6
    case Grevena => 7
    case Drama => 8
    case Dodecanese => 9
    case Evros => 10
    case Euboea => 11
    case Evrytania => 12
    case Zakynthos => 13
    case Elis => 14
    case Imathia => 15
    case Heraklion => 16
    case Thesprotia => 17
    case Thessaloniki => 18
    case Ioannina => 19
    case Kavala => 20
    case Karditsa => 21
    case Kastoria => 22
    case Kerkyra => 23
    case Cephalonia => 24
    case Kilkis => 25
    case Kozani => 26
    case Corinthia => 27
    case Cyclades => 28
    case Laconia => 29
    case Larissa => 30
    case Lasithi => 31
    case Lesbos => 32
    case Lefkada => 33
    case Magnesia => 34
    case Messenia => 35
    case Xanthi => 36
    case Pella => 37
    case Pieria => 38
    case Preveza => 39
    case Rethymno => 40
    case Rhodope => 41
    case Samos => 42
    case Serres => 43
    case Trikala => 44
    case Phthiotis => 45
    case Florina => 46
    case Phocis => 47
    case Chalkidiki => 48
    case Chania => 49
    case Chios => 50
  }

  /** The member name, which is also the member's value. */
  function PrefectureName(x: Prefecture): string {
    match x
    case Attica => "ATTICA"
    case AetoliaAcarnania => "AETOLIA_ACARNANIA"
    case Argolis => "ARGOLIS"
    case Arkadias => "ARKADIAS"
    case Arta => "ARTA"
    case Achaea => "ACHAEA"
    case Boeotia => "BOEOTIA"
    case Grevena => "GREVENA"
    case Drama => "DRAMA"
    case Dodecanese => "DODECANESE"
    case Evros => "EVROS"
    case Euboea => "EUBOEA"
    case Evrytania => "EVRYTANIA"
    case Zakynthos => "ZAKYNTHOS"
    case Elis => "ELIS"
    case Imathia => "IMATHIA"
    case Heraklion => "HERAKLION"
    case Thesprotia => "THESPROTIA"
    case Thessaloniki => "THESSALONIKI"
    case Ioannina => "IOANNINA"
    case Kavala => "KAVALA"
    case Karditsa => "KARDITSA"
    case Kastoria => "KASTORIA"
    case Kerkyra => "KERKYRA"
    case Cephalonia => "CEPHALONIA"
    case Kilkis => "KILKIS"
    case Kozani => "KOZANI"
    case Corinthia => "CORINTHIA"
    case Cyclades => "CYCLADES"
    case Laconia => "LACONIA"
    case Larissa => "LARISSA"
    case Lasithi => "LASITHI"
    case Lesbos => "LESBOS"
    case Lefkada => "LEFKADA"
    case Magnesia => "MAGNESIA"
    case Messenia => "MESSENIA"
    case Xanthi => "XANTHI"
    case Pella => "PELLA"
    case Pieria => "PIERIA"
    case Preveza => "PREVEZA"
    case Rethymno => "RETHYMNO"
    case Rhodope => "RHODOPE"
    case Samos => "SAMOS"
    case Serres => "SERRES"
    case Trikala => "TRIKALA"
    case Phthiotis => "PHTHIOTIS"
    case Florina => "FLORINA"
    case Phocis => "PHOCIS"
    case Chalkidiki => "CHALKIDIKI"
    case Chania => "CHANIA"
    case Chios => "CHIOS"
  }

  function PrefectureDescription(x: Prefecture): string {
    match x
    case Attica => "ΑΤΤΙΚΗΣ"
    case AetoliaAcarnania => "ΑΙΤΩΛΙΑΣ ΚΑΙ ΑΚΑΡΝΑΝΙΑΣ"
    case Argolis => "ΑΡΓΟΛΙΔΟΣ"
    case Arkadias => "ΑΡΚΑΔΙΑΣ"
    case Arta => "ΑΡΤΗΣ"
    case Achaea => "ΑΧΑΪΑΣ"
    case Boeotia => "ΒΟΙΩΤΙΑΣ"
    case Grevena => "ΓΡΕΒΕΝΩΝ"
    case Drama => "ΔΡΑΜΑΣ"
    case Dodecanese => "ΔΩΔΕΚΑΝΗΣΟΥ"
    case Evros => "ΕΒΡΟΥ"
    case Euboea => "ΕΥΒΟΙΑΣ"
    case Evrytania => "ΕΥΡΥΤΑΝΙΑΣ"
    case Zakynthos => "ΖΑΚΥΝΘΟΥ"
    case Elis => "ΗΛΕΙΑΣ"
    case Imathia => "ΗΜΑΘΙΑΣ"
    case Heraklion => "ΗΡΑΚΛΕΙΟΥ"
    case Thesprotia => "ΘΕΣΠΡΩΤΙΑΣ"
    case Thessaloniki => "ΘΕΣΣΑΛΟΝΙΚΗΣ"
    case Ioannina => "ΙΩΑΝΝΙΝΩΝ"
    case Kavala => "ΚΑΒΑΛΑΣ"
    case Karditsa => "ΚΑΡΔΙΤΣΗΣ"
    case Kastoria => "ΚΑΣΤΟΡΙΑΣ"
    case Kerkyra => "ΚΕΡΚΥΡΑΣ"
    case Cephalonia => "ΚΕΦΑΛΛΗΝΙΑΣ"
    case Kilkis => "ΚΙΛΚΙΣ"
    case Kozani => "ΚΟΖΑΝΗΣ"
    case Corinthia => "ΚΟΡΙΝΘΙΑΣ"
    case Cyclades => "ΚΥΚΛΑΔΩΝ"
    case Laconia => "ΛΑΚΩΝΙΑΣ"
    case Larissa => "ΛΑΡΙΣΗΣ"
    case Lasithi => "ΛΑΣΙΘΙΟΥ"
    case Lesbos => "ΛΕΣΒΟΥ"
    case Lefkada => "ΛΕΥΚΑΔΟΣ"
    case Magnesia => "ΜΑΓΝΗΣΙΑΣ"
    case Messenia => "ΜΕΣΣΗΝΙΑΣ"
    case Xanthi => "ΞΑΝΘΗΣ"
    case Pella => "ΠΕΛΛΗΣ"
    case Pieria => "ΠΙΕΡΙΑΣ"
    case Preveza => "ΠΡΕΒΕΖΗΣ"
    case Rethymno => "ΡΕΘΥΜΝΗΣ"
    case Rhodope => "ΡΟΔΟΠΗΣ"
    case Samos => "ΣΑΜΟΥ"
    case Serres => "ΣΕΡΡΩΝ"
    case Trikala => "ΤΡΙΚΑΛΩΝ"
    case Phthiotis => "ΦΘΙΩΤΙΔΟΣ"
    case Florina => "ΦΛΩΡΙΝΗΣ"
    case Phocis => "ΦΩΚΙΔΟΣ"
    case Chalkidiki => "ΧΑΛΚΙΔΙΚΗΣ"
    case Chania => "ΧΑΝΙΩΝ"
    case Chios => "ΧΙΟΥ"
  }

  /** `Prefecture[name]`: the member with that name, `KeyError` otherwise. */
  function PrefectureFromName(name: string): (r: Result<Prefecture>)
    ensures r.Ok? ==> PrefectureName(r.value) == name
    ensures r.Err? ==> r.error == KeyError
  {
    match FindNamed(AllPrefectures(), PrefectureName, name)
    case Some(x) => Ok(x)
    case None => Err(KeyError)
  }

  /** The declaration lists every member exactly once: positions and members correspond. */
  lemma PrefectureOrder()
    ensures |AllPrefectures()| == 51
    ensures forall i :: 0 <= i < |AllPrefectures()| ==> PrefectureIndex(AllPrefectures()[i]) == i
  {
    forall i | 0 <= i < 51
      ensures PrefectureIndex(PrefectureAt(i)) == i
    {
      if i < 9 {
        PrefecturePositions0(i);
      } else if i < 18 {
        PrefecturePositions1(i);
      } else if i < 27 {
        PrefecturePositions2(i);
      } else if i < 36 {
        PrefecturePositions3(i);
      } else if i < 45 {
        PrefecturePositions4(i);
      } else {
        PrefecturePositions5(i);
      }
    }
  }

  /** Every member sits in the declaration at its own position. */
  lemma PrefectureListed(x: Prefecture)
    ensures PrefectureIndex(x) < |AllPrefectures()| && AllPrefectures()[PrefectureIndex(x)] == x
  {
    PrefectureMember(x);
  }

  /** Looking a member up by its name gives back that member. */
  lemma PrefectureNameRoundTrip(x: Prefecture)
    ensures PrefectureFromName(PrefectureName(x)).Ok? && PrefectureFromName(PrefectureName(x)).value == x
  {
    PrefectureListed(x);
    var r := FindNamed(AllPrefectures(), PrefectureName, PrefectureName(x));
    assert PrefectureName(AllPrefectures()[PrefectureIndex(x)]) == PrefectureName(x);
    PrefectureNamesDistinct(r.value, x);
  }

  /** No two members share a name. */
  lemma PrefectureNamesDistinct(x: Prefecture, y: Prefecture)
    requires PrefectureName(x) == PrefectureName(y)
    ensures x == y
  {
    PrefectureMember(x);
    PrefectureMember(y);
  }

  /** The length and the first and third characters of a name, which already
      tell the members' names apart. */
  function PrefectureKey(s: string): (int, char, char) {
    if |s| < 3 then (|s|, ' ', ' ') else (|s|, s[0], s[2])
  }

  /** The member whose name has the key. */
  function PrefectureOfKey(k: (int, char, char)): (r: Option<Prefecture>)
    ensures r.Some? ==> k.0 >= 4 && (k.1 == 'H' ==> k.2 == 'R')
  {
    match k
    case (6, 'A', 'T') => Some(Attica)
    case (17, 'A', 'T') => Some(AetoliaAcarnania)
    case (7, 'A', 'G') => Some(Argolis)
    case (8, 'A', 'K') => Some(Arkadias)
    case (4, 'A', 'T') => Some(Arta)
    case (6, 'A', 'H') => Some(Achaea)
    case (7, 'B', 'E') => Some(Boeotia)
    case (7, 'G', 'E') => Some(Grevena)
    case (5, 'D', 'A') => Some(Drama)
    case (10, 'D', 'D') => Some(Dodecanese)
    case (5, 'E', 'R') => Some(Evros)
    case (6, 'E', 'B') => Some(Euboea)
    case (9, 'E', 'R') => Some(Evrytania)
    case (9, 'Z', 'K') => Some(Zakynthos)
    case (4, 'E', 'I') => Some(Elis)
    case (7, 'I', 'A') => Some(Imathia)
    case (9, 'H', 'R') => Some(Heraklion)
    case (10, 'T', 'E') => Some(Thesprotia)
    case (12, 'T', 'E') => Some(Thessaloniki)
    case (8, 'I', 'A') => Some(Ioannina)
    case (6, 'K', 'V') => Some(Kavala)
    case (8, 'K', 'R') => Some(Karditsa)
    case (8, 'K', 'S') => Some(Kastoria)
    case (7, 'K', 'R') => Some(Kerkyra)
    case (10, 'C', 'P') => Some(Cephalonia)
    case (6, 'K', 'L') => Some(Kilkis)
    case (6, 'K', 'Z') => Some(Kozani)
    case (9, 'C', 'R') => Some(Corinthia)
    case (8, 'C', 'C') => Some(Cyclades)
    case (7, 'L', 'C') => Some(Laconia)
    case (7, 'L', 'R') => Some(Larissa)
    case (7, 'L', 'S') => Some(Lasithi)
    case (6, 'L', 'S') => Some(Lesbos)
    case (7, 'L', 'F') => Some(Lefkada)
    case (8, 'M', 'G') => Some(Magnesia)
    case (8, 'M', 'S') => Some(Messenia)
    case (6, 'X', 'N') => Some(Xanthi)
    case (5, 'P', 'L') => Some(Pella)
    case (6, 'P', 'E') => Some(Pieria)
    case (7, 'P', 'E') => Some(Preveza)
    case (8, 'R', 'T') => Some(Rethymno)
    case (7, 'R', 'O') => Some(Rhodope)
    case (5, 'S', 'M') => Some(Samos)
    case (6, 'S', 'R') => Some(Serres)
    case (7, 'T', 'I') => Some(Trikala)
    case (9, 'P', 'T') => Some(Phthiotis)
    case (7, 'F', 'O') => Some(Florina)
    case (6, 'P', 'O') => Some(Phocis)
    case (10, 'C', 'A') => Some(Chalkidiki)
    case (6, 'C', 'A') => Some(Chania)
    case (5, 'C', 'I') => Some(Chios)
    case _ => None
  }

  /** The members in six groups of nine consecutive positions (the last has
      six), so that a fact about every member can be shown group by group. */
  function PrefectureGroup(x: Prefecture): nat {
    match x
    case Attica | AetoliaAcarnania | Argolis | Arkadias | Arta | Achaea | Boeotia | Grevena | Drama => 0
    case Dodecanese | Evros | Euboea | Evrytania | Zakynthos | Elis | Imathia | Heraklion | Thesprotia => 1
    case Thessaloniki | Ioannina | Kavala | Karditsa | Kastoria | Kerkyra | Cephalonia | Kilkis | Kozani => 2
    case Corinthia | Cyclades | Laconia | Larissa | Lasithi | Lesbos | Lefkada | Magnesia | Messenia => 3
    case Xanthi | Pella | Pieria | Preveza | Rethymno | Rhodope | Samos | Serres | Trikala => 4
    case Phthiotis | Florina | Phocis | Chalkidiki | Chania | Chios => 5
  }

  /** Each member sits at its position and is told apart by its name's key. */
  lemma PrefectureMember(x: Prefecture)
    ensures PrefectureIndex(x) < 51 && PrefectureAt(PrefectureIndex(x)) == x
    ensures PrefectureOfKey(PrefectureKey(PrefectureName(x))) == Some(x)
  {
    match PrefectureGroup(x)
    case 0 => PrefectureMember0(x);
    case 1 => PrefectureMember1(x);
    case 2 => PrefectureMember2(x);
    case 3 => PrefectureMember3(x);
    case 4 => PrefectureMember4(x);
    case _ => PrefectureMember5(x);
  }

  lemma PrefectureMember0(x: Prefecture)
    requires PrefectureGroup(x) == 0
    ensures PrefectureIndex(x) < 51 && PrefectureAt(PrefectureIndex(x)) == x
    ensures PrefectureOfKey(PrefectureKey(PrefectureName(x))) == Some(x)
  {
  }

  lemma PrefectureMember1(x: Prefecture)
    requires PrefectureGroup(x) == 1
    ensures PrefectureIndex(x) < 51 && PrefectureAt(PrefectureIndex(x)) == x
    ensures PrefectureOfKey(PrefectureKey(PrefectureName(x))) == Some(x)
  {
  }

  lemma PrefectureMember2(x: Prefecture)
    requires PrefectureGroup(x) == 2
    ensures PrefectureIndex(x) < 51 && PrefectureAt(PrefectureIndex(x)) == x
    ensures PrefectureOfKey(PrefectureKey(PrefectureName(x))) == Some(x)
  {
  }

  lemma PrefectureMember3(x: Prefecture)
    requires PrefectureGroup(x) == 3
    ensures PrefectureIndex(x) < 51 && PrefectureAt(PrefectureIndex(x)) == x
    ensures PrefectureOfKey(PrefectureKey(PrefectureName(x))) == Some(x)
  {
  }

  lemma PrefectureMember4(x: Prefecture)
    requires PrefectureGroup(x) == 4
    ensures PrefectureIndex(x) < 51 && PrefectureAt(PrefectureIndex(x)) == x
    ensures PrefectureOfKey(PrefectureKey(PrefectureName(x))) == Some(x)
  {
  }

  lemma PrefectureMember5(x: Prefecture)
    requires PrefectureGroup(x) == 5
    ensures PrefectureIndex(x) < 51 && PrefectureAt(PrefectureIndex(x)) == x
    ensures PrefectureOfKey(PrefectureKey(PrefectureName(x))) == Some(x)
  {
  }

  lemma PrefecturePositions0(i: nat)
    requires 0 <= i < 9
    ensures PrefectureIndex(PrefectureAt(i)) == i
  {
  }

  lemma PrefecturePositions1(i: nat)
    requires 9 <= i < 18
    ensures PrefectureIndex(PrefectureAt(i)) == i
  {
  }

  lemma PrefecturePositions2(i: nat)
    requires 18 <= i < 27
    ensures PrefectureIndex(PrefectureAt(i)) == i
  {
  }

  lemma PrefecturePositions3(i: nat)
    requires 27 <= i < 36
    ensures PrefectureIndex(PrefectureAt(i)) == i
  {
  }

  lemma PrefecturePositions4(i: nat)
    requires 36 <= i < 45
    ensures PrefectureIndex(PrefectureAt(i)) == i
  {
  }

  lemma PrefecturePositions5(i: nat)
    requires 45 <= i < 51
    ensures PrefectureIndex(PrefectureAt(i)) == i
  {
  }

  // ---------------------------------------------------------------------
  // Data types and data file types
  // ---------------------------------------------------------------------

  /** The kind of data a bulletin holds. */
  datatype DataType = WeeklyCountry | WeeklyPrefecture | DailyCountry | DailyPrefecture

  const AllDataTypes: seq<DataType> := [WeeklyCountry, WeeklyPrefecture, DailyCountry, DailyPrefecture]

  function DataTypeName(t: DataType): string {
    match t
    case WeeklyCountry => "WEEKLY_COUNTRY"
    case WeeklyPrefecture => "WEEKLY_PREFECTURE"
    case DailyCountry => "DAILY_COUNTRY"
    case DailyPrefecture => "DAILY_PREFECTURE"
  }

  /** The member value, which the storage layers use as a key. */
  function DataTypeValue(t: DataType): string {
    match t
    case WeeklyCountry => "weekly_country"
    case WeeklyPrefecture => "weekly_prefecture"
    case DailyCountry => "daily_country"
    case DailyPrefecture => "daily_prefecture"
  }

  /** The kind of bulletin file published on the fuel prices site. */
  datatype DataFileType = Weekly | DailyCountryFile | DailyPrefectureFile

  const AllDataFileTypes: seq<DataFileType> := [Weekly, DailyCountryFile, DailyPrefectureFile]

  function DataFileTypeName(t: DataFileType): string {
    match t
    case Weekly => "WEEKLY"
    case DailyCountryFile => "DAILY_COUNTRY"
    case DailyPrefectureFile => "DAILY_PREFECTURE"
  }

  /** The member value, which also names the directory of the cached files. */
  function DataFileTypeValue(t: DataFileType): string {
    match t
    case Weekly => "weekly"
    case DailyCountryFile => "daily_country"
    case DailyPrefectureFile => "daily_prefecture"
  }

  function DataFileTypeDescription(t: DataFileType): string {
    match t
    case Weekly => "Weekly"
    case DailyCountryFile => "Daily Country"
    case DailyPrefectureFile => "Daily Prefecture"
  }

  /** The page, relative to the site, that links to the files. */
  function Page(t: DataFileType): string {
    match t
    case Weekly => "deltia.view"
    case DailyCountryFile => "deltia_d.view"
    case DailyPrefectureFile => "deltia_dn.view"
  }

  /** The data types a file of this type contains. */
  function DataTypes(t: DataFileType): (r: seq<DataType>)
    ensures r != [] && (forall i, j :: 0 <= i < j < |r| ==> r[i] != r[j])
  {
    match t
    case Weekly => [WeeklyCountry, WeeklyPrefecture]
    case DailyCountryFile => [DailyCountry]
    case DailyPrefectureFile => [DailyPrefecture]
  }

  /** The prefix of the file names. */
  function Prefix(t: DataFileType): (p: string)
    ensures p != [] && forall i :: 0 <= i < |p| ==> IsUpperOrUnderscore(p[i])
  {
    match t
    case Weekly => "EBDOM_DELTIO"
    case DailyCountryFile => "IMERISIO_DELTIO_PANELLINIO"
    case DailyPrefectureFile => "IMERISIO_DELTIO_ANA_NOMO"
  }

  predicate IsUpperOrUnderscore(c: char) {
    'A' <= c <= 'Z' || c == '_'
  }

  /** Every data type belongs to exactly one file type. */
  lemma DataTypesPartition(d: DataType)
    ensures exists t :: d in DataTypes(t)
    ensures forall t, u :: d in DataTypes(t) && d in DataTypes(u) ==> t == u
  {
    match d
    case WeeklyCountry => assert d in DataTypes(Weekly);
    case WeeklyPrefecture => assert d in DataTypes(Weekly);
    case DailyCountry => assert d in DataTypes(DailyCountryFile);
    case DailyPrefecture => assert d in DataTypes(DailyPrefectureFile);
  }

  /** `DataFileType[name]`. */
  function DataFileTypeFromName(name: string): (r: Result<DataFileType>)
    ensures r.Ok? ==> DataFileTypeName(r.value) == name
    ensures r.Err? ==> r.error == KeyError
  {
    match FindNamed(AllDataFileTypes, DataFileTypeName, name)
    case Some(t) => Ok(t)
    case None => Err(KeyError)
  }

  lemma DataFileTypeNameRoundTrip(t: DataFileType)
    ensures DataFileTypeFromName(DataFileTypeName(t)).Ok? && DataFileTypeFromName(DataFileTypeName(t)).value == t
  {
    var i := match t case Weekly => 0 case DailyCountryFile => 1 case DailyPrefectureFile => 2;
    assert AllDataFileTypes[i] == t;
    var r := FindNamed(AllDataFileTypes, DataFileTypeName, DataFileTypeName(t));
    assert DataFileTypeName(AllDataFileTypes[i]) == DataFileTypeName(t);
    assert DataFileTypeName(r.value) == DataFileTypeName(t);
  }

  // ---------------------------------------------------------------------
  // Publication dates
  // ---------------------------------------------------------------------

  /** A file of type t is published on d: every day, or on Fridays for the weekly bulletin. */
  predicate Published(t: DataFileType, d: Date) {
    t != Weekly || Weekday(d) == Friday
  }

  /** `DataFileType.dates(start, end)`: the publication dates from start to end, inclusive, in order. */
  function Dates(t: DataFileType, start: Date, end: Date): seq<Date>
    decreases Ordinal(end) + 1 - Ordinal(start)
  {
    if Less(end, start) then []
    else
      var here := if Published(t, start) then [start] else [];
      SuccOrdinal(start);
      match Succ(start)
      case None => here
      case Some(next) => here + Dates(t, next, end)
  }

  /** Whether `DataFileType.dates(start, end)` raises `OverflowError` after
      its last date: the loop steps past every day it visits, and stepping
      past 9999-12-31 overflows, so it raises exactly when the range reaches
      that day. `Dates` is what it yields before. */
  function DatesOverflow(start: Date, end: Date): (r: bool)
    ensures r <==> LessEq(start, end) && end == LastDate
    decreases Ordinal(end) + 1 - Ordinal(start)
  {
    if Less(end, start) then false
    else
      SuccOrdinal(start);
      OrdinalBounds(start);
      OrdinalBounds(end);
      match Succ(start)
      case None => true
      case Some(next) => DatesOverflow(next, end)
  }

  /** Every yielded date is a publication date within the range. */
  lemma {:induction false} DatesWithin(t: DataFileType, start: Date, end: Date)
    ensures forall i :: 0 <= i < |Dates(t, start, end)| ==>
      var d := Dates(t, start, end)[i]; LessEq(start, d) && LessEq(d, end) && Published(t, d)
    decreases Ordinal(end) + 1 - Ordinal(start)
  {
    SuccOrdinal(start);
    if !Less(end, start) && Succ(start).Some? {
      DatesWithin(t, Succ(start).value, end);
    }
  }

  /** Every publication date within the range is yielded. */
  lemma {:induction false} DatesComplete(t: DataFileType, start: Date, end: Date, d: Date)
    requires LessEq(start, d) && LessEq(d, end) && Published(t, d)
    ensures d in Dates(t, start, end)
    decreases Ordinal(end) + 1 - Ordinal(start)
  {
    SuccOrdinal(start);
    OrdinalInjective(start, d);
    OrdinalBounds(d);
    if d != start {
      DatesComplete(t, Succ(start).value, end, d);
    }
  }

  /** The dates are strictly increasing. */
  lemma {:induction false} DatesIncreasing(t: DataFileType, start: Date, end: Date)
    ensures forall i, j :: 0 <= i < j < |Dates(t, start, end)| ==> Less(Dates(t, start, end)[i], Dates(t, start, end)[j])
    decreases Ordinal(end) + 1 - Ordinal(start)
  {
    SuccOrdinal(start);
    if !Less(end, start) && Succ(start).Some? {
      var next := Succ(start).value;
      DatesIncreasing(t, next, end);
      DatesWithin(t, next, end);
    }
  }

  /** A range whose start follows its end yields nothing. */
  lemma DatesEmpty(t: DataFileType, start: Date, end: Date)
    ensures Dates(t, start, end) == [] <==> forall d :: LessEq(start, d) && LessEq(d, end) ==> !Published(t, d)
  {
    if Dates(t, start, end) == [] {
      forall d | LessEq(start, d) && LessEq(d, end) ensures !Published(t, d) {
        if Published(t, d) {
          DatesComplete(t, start, end, d);
        }
      }
    } else {
      DatesWithin(t, start, end);
      var d := Dates(t, start, end)[0];
      assert LessEq(start, d) && LessEq(d, end) && Published(t, d);
    }
  }

  /** The daily files are published every day: end - start + 1 dates. */
  lemma {:induction false} DailyDatesCount(t: DataFileType, start: Date, end: Date)
    requires t != Weekly && LessEq(start, end)
    ensures |Dates(t, start, end)| == DaysBetween(start, end) + 1
    decreases Ordinal(end) + 1 - Ordinal(start)
  {
    SuccOrdinal(start);
    OrdinalBounds(end);
    if start != end {
      OrdinalInjective(start, end);
      DailyDatesCount(t, Succ(start).value, end);
    }
  }

  // ---------------------------------------------------------------------
  // File names and links
  // ---------------------------------------------------------------------

  /** The name of a file written for the date `named`, followed by `suffix`. */
  datatype Renaming = Renaming(named: Date, suffix: string)

  /** The five weekly bulletins published under a name other than their own date's. */
  function WeeklyRenaming(d: Date): Option<Renaming> {
    if d == Ymd(2015, 3, 6) then Some(Renaming(Ymd(2015, 3, 2), ".pdf"))
    else if d == Ymd(2017, 7, 7) then Some(Renaming(Ymd(2017, 7, 10), ".pdf"))
    else if d == Ymd(2018, 1, 5) then Some(Renaming(d, "..pdf"))
    else if d == Ymd(2022, 12, 23) then Some(Renaming(Ymd(2022, 12, 22), ".pdf"))
    else if d == Ymd(2024, 1, 26) then Some(Renaming(Ymd(2024, 1, 25), ".pdf"))
    else None
  }

  const WeeklyRenamedDates: set<Date> :=
    {Ymd(2015, 3, 6), Ymd(2017, 7, 7), Ymd(2018, 1, 5), Ymd(2022, 12, 23), Ymd(2024, 1, 26)}

  /** PREFIX_DD_MM_YYYY followed by the suffix. */
  function NamedFile(t: DataFileType, d: Date, suffix: string): string {
    Prefix(t) + "_" + DmyFormat(d) + suffix
  }

  /** `DataFileType._get_file_name(date)`. */
  function FileName(t: DataFileType, d: Date): string {
    if t == Weekly && WeeklyRenaming(d).Some? then
      NamedFile(t, WeeklyRenaming(d).value.named, WeeklyRenaming(d).value.suffix)
    else NamedFile(t, d, ".pdf")
  }

  const LinkBase: string := "http://www.fuelprices.gr/files/deltia/"

  /** `DataFileType.link(date)`. */
  function Link(t: DataFileType, d: Date): string {
    LinkBase + FileName(t, d)
  }

  /** The date written in a file name is recovered from it. */
  lemma NamedFileInjective(t: DataFileType, a: Date, b: Date, sa: string, sb: string)
    requires NamedFile(t, a, sa) == NamedFile(t, b, sb)
    ensures a == b
  {
    var k := |Prefix(t)| + 1;
    assert NamedFile(t, a, sa)[k..k + 10] == DmyFormat(a);
    assert NamedFile(t, b, sb)[k..k + 10] == DmyFormat(b);
    DmyFormatInjective(a, b);
  }

  /** Exactly the five weekly dates get a name other than PREFIX_DD_MM_YYYY.pdf. */
  lemma FileNameRenamed(t: DataFileType, d: Date)
    ensures FileName(t, d) != NamedFile(t, d, ".pdf") <==> t == Weekly && d in WeeklyRenamedDates
  {
    if t == Weekly && d in WeeklyRenamedDates {
      var r := WeeklyRenaming(d).value;
      if r.named == d {
        assert |FileName(t, d)| != |NamedFile(t, d, ".pdf")|;
      } else if FileName(t, d) == NamedFile(t, d, ".pdf") {
        NamedFileInjective(t, r.named, d, r.suffix, ".pdf");
      }
    }
  }

  /** Each renamed weekly bulletin is a Friday's, published under a date that is not a Friday. */
  lemma RenamedFridays(d: Date)
    requires d in WeeklyRenamedDates
    ensures Published(Weekly, d)
    ensures Published(Weekly, WeeklyRenaming(d).value.named) <==> WeeklyRenaming(d).value.named == d
  {
    if d == Ymd(2015, 3, 6) {
      MovedFriday(2015, 3, 6, 2, 0);
    } else if d == Ymd(2017, 7, 7) {
      MovedFriday(2017, 7, 7, 10, 0);
    } else if d == Ymd(2018, 1, 5) {
      WeekdayOf(2018, 1, 5, Friday);
    } else if d == Ymd(2022, 12, 23) {
      MovedFriday(2022, 12, 23, 22, 3);
    } else {
      MovedFriday(2024, 1, 26, 25, 3);
    }
  }

  /** A Friday of a month whose bulletin is published under another day of the same month. */
  lemma MovedFriday(y: int, m: int, day: int, named: int, w: int)
    requires ValidYmd(Ymd(y, m, day)) && ValidYmd(Ymd(y, m, named)) && w != Friday
    requires (DaysBeforeYearClosedForm(y) + DaysBeforeMonth(y, m) + day + 6) % 7 == Friday
    requires (DaysBeforeYearClosedForm(y) + DaysBeforeMonth(y, m) + named + 6) % 7 == w
    ensures Published(Weekly, Ymd(y, m, day)) && !Published(Weekly, Ymd(y, m, named))
  {
    WeekdayOf(y, m, day, Friday);
    WeekdayOf(y, m, named, w);
  }

  /** From a publication date to itself there is just that date. */
  lemma DatesSingle(t: DataFileType, d: Date)
    requires Published(t, d)
    ensures Dates(t, d, d) == [d]
    ensures DatesOverflow(d, d) <==> d == LastDate
  {
    SuccOrdinal(d);
    if Succ(d).Some? {
      assert Dates(t, Succ(d).value, d) == [];
    }
  }

  /** The weekday of a given date, by the closed form of the days before its year. */
  lemma WeekdayOf(y: int, m: int, day: int, w: int)
    requires ValidYmd(Ymd(y, m, day))
    requires (DaysBeforeYearClosedForm(y) + DaysBeforeMonth(y, m) + day + 6) % 7 == w
    ensures Weekday(Ymd(y, m, day)) == w
  {
    DaysBeforeYearClosed(y);
  }

  lemma NoSlashInNamedFile(t: DataFileType, d: Date, suffix: string)
    requires '/' !in suffix
    ensures '/' !in NamedFile(t, d, suffix)
  {
    var p, x := Prefix(t), DmyFormat(d);
    var f := NamedFile(t, d, suffix);
    DmyFormatChars(d);
    forall i | 0 <= i < |f| ensures f[i] != '/' {
      if i < |p| { assert f[i] == p[i]; }
      else if i == |p| { }
      else if i < |p| + 11 { assert f[i] == x[i - |p| - 1]; }
      else { assert f[i] == suffix[i - |p| - 11]; }
    }
  }

  /** File names hold no '/'. */
  lemma NoSlashInFileName(t: DataFileType, d: Date)
    ensures '/' !in FileName(t, d)
  {
    if t == Weekly && WeeklyRenaming(d).Some? {
      var r := WeeklyRenaming(d).value;
      assert '/' !in r.suffix;
      NoSlashInNamedFile(t, r.named, r.suffix);
    } else {
      NoSlashInNamedFile(t, d, ".pdf");
    }
  }

  /** A link ends with the file name, after the last '/'. */
  lemma LinkFileName(t: DataFileType, d: Date)
    ensures var l := Link(t, d); var k := RFind(l, '/');
      k == |LinkBase| - 1 && l[k + 1..] == FileName(t, d)
  {
    NoSlashInFileName(t, d);
    RFindAfter(LinkBase, FileName(t, d), '/');
  }
}
