/** Bulgarian districts and statistical regions: name and code lookups, and keying data rows by region code. */
module BulgariaRegions {
  import opened Wrappers
  import opened Strings
  import opened Seqs
  import opened Records
  import opened DatasetTypes

  datatype RegionKind = District | StatRegion

  /** One administrative unit: its code, its Bulgarian and English names, its NUTS code and its level. */
  datatype RegionMapping = RegionMapping(code: string, bg: string, en: string, nuts: string, kind: RegionKind)
  {
    /** `region[locale]`. */
    function Name(locale: Locale): string
    {
      match locale
      case Bg => bg
      case En => en
    }
  }

  /** The units of both tables, one constructor each: 28 districts, then 6 statistical regions. */
  datatype Unit =
    | SofiaCity
    | SofiaProvince
    | Plovdiv
    | Haskovo
    | Pazardzhik
    | Smolyan
    | Kardzhali
    | Varna
    | Dobrich
    | Burgas
    | Sliven
    | Yambol
    | StaraZagora
    | Vidin
    | Montana
    | Vratsa
    | Pleven
    | VelikoTarnovo
    | Gabrovo
    | Ruse
    | Razgrad
    | Silistra
    | Targovishte
    | Blagoevgrad
    | Pernik
    | Kyustendil
    | Lovech
    | Shumen
    | Southwestern
    | SouthCentral
    | Northeastern
    | Southeastern
    | Northwestern
    | NorthCentral

  /** The table row of a unit. */
  function MappingOf(u: Unit): RegionMapping
  {
    match u
    case SofiaCity => RegionMapping("BG411", "София-град", "Sofia City", "BG411", District)
    case SofiaProvince => RegionMapping("BG412", "София", "Sofia", "BG412", District)
    case Plovdiv => RegionMapping("BG421", "Пловдив", "Plovdiv", "BG421", District)
    case Haskovo => RegionMapping("BG422", "Хасково", "Haskovo", "BG422", District)
    case Pazardzhik => RegionMapping("BG423", "Пазарджик", "Pazardzhik", "BG423", District)
    case Smolyan => RegionMapping("BG424", "Смолян", "Smolyan", "BG424", District)
    case Kardzhali => RegionMapping("BG425", "Кърджали", "Kardzhali", "BG425", District)
    case Varna => RegionMapping("BG331", "Варна", "Varna", "BG331", District)
    case Dobrich => RegionMapping("BG332", "Добрич", "Dobrich", "BG332", District)
    case Burgas => RegionMapping("BG341", "Бургас", "Burgas", "BG341", District)
    case Sliven => RegionMapping("BG342", "Сливен", "Sliven", "BG342", District)
    case Yambol => RegionMapping("BG343", "Ямбол", "Yambol", "BG343", District)
    case StaraZagora => RegionMapping("BG344", "Стара Загора", "Stara Zagora", "BG344", District)
    case Vidin => RegionMapping("BG311", "Видин", "Vidin", "BG311", District)
    case Montana => RegionMapping("BG312", "Монтана", "Montana", "BG312", District)
    case Vratsa => RegionMapping("BG313", "Враца", "Vratsa", "BG313", District)
    case Pleven => RegionMapping("BG321", "Плевен", "Pleven", "BG321", District)
    case VelikoTarnovo => RegionMapping("BG322", "Велико Търново", "Veliko Tarnovo", "BG322", District)
    case Gabrovo => RegionMapping("BG323", "Габрово", "Gabrovo", "BG323", District)
    case Ruse => RegionMapping("BG324", "Русе", "Ruse", "BG324", District)
    case Razgrad => RegionMapping("BG325", "Разград", "Razgrad", "BG325", District)
    case Silistra => RegionMapping("BG326", "Силистра", "Silistra", "BG326", District)
    case Targovishte => RegionMapping("BG327", "Търговище", "Targovishte", "BG327", District)
    case Blagoevgrad => RegionMapping("BG413", "Благоевград", "Blagoevgrad", "BG413", District)
    case Pernik => RegionMapping("BG414", "Перник", "Pernik", "BG414", District)
    case Kyustendil => RegionMapping("BG415", "Кюстендил", "Kyustendil", "BG415", District)
    case Lovech => RegionMapping("BG416", "Ловеч", "Lovech", "BG416", District)
    case Shumen => RegionMapping("BG417", "Шумен", "Shumen", "BG417", District)
    case Southwestern => RegionMapping("BG41", "Югозападен", "Southwestern", "BG41", StatRegion)
    case SouthCentral => RegionMapping("BG42", "Южен централен", "South Central", "BG42", StatRegion)
    case Northeastern => RegionMapping("BG33", "Североизточен", "Northeastern", "BG33", StatRegion)
    case Southeastern => RegionMapping("BG34", "Югоизточен", "Southeastern", "BG34", StatRegion)
    case Northwestern => RegionMapping("BG31", "Северозападен", "Northwestern", "BG31", StatRegion)
    case NorthCentral => RegionMapping("BG32", "Северен централен", "North Central", "BG32", StatRegion)
  }

  /** The position of a unit in `[...bulgariaRegions, ...bulgariaStatRegions]`. */
  function Position(u: Unit): nat
  {
    match u
    case SofiaCity => 0
    case SofiaProvince => 1
    case Plovdiv => 2
    case Haskovo => 3
    case Pazardzhik => 4
    case Smolyan => 5
    case Kardzhali => 6
    case Varna => 7
    case Dobrich => 8
    case Burgas => 9
    case Sliven => 10
    case Yambol => 11
    case StaraZagora => 12
    case Vidin => 13
    case Montana => 14
    case Vratsa => 15
    case Pleven => 16
    case VelikoTarnovo => 17
    case Gabrovo => 18
    case Ruse => 19
    case Razgrad => 20
    case Silistra => 21
    case Targovishte => 22
    case Blagoevgrad => 23
    case Pernik => 24
    case Kyustendil => 25
    case Lovech => 26
    case Shumen => 27
    case Southwestern => 28
    case SouthCentral => 29
    case Northeastern => 30
    case Southeastern => 31
    case Northwestern => 32
    case NorthCentral => 33
  }

  /** `bulgariaRegions`: the 28 districts (NUTS 3). */
  function Districts(): seq<RegionMapping>
  {
    seq(28, i requires 0 <= i < 28 => MappingOf(UnitAt(i)))
  }

  /** `bulgariaStatRegions`: the six statistical regions (NUTS 2). */
  function StatRegions(): seq<RegionMapping>
  {
    seq(6, i requires 0 <= i < 6 => MappingOf(UnitAt(28 + i)))
  }

  /** `[...bulgariaRegions, ...bulgariaStatRegions]`: districts first. */
  function AllRegions(): seq<RegionMapping>
  {
    Districts() + StatRegions()
  }

  /** The codes of a region list, in order. */
  function Codes(regions: seq<RegionMapping>): (codes: seq<string>)
    ensures |codes| == |regions|
    ensures forall i :: 0 <= i < |regions| ==> codes[i] == regions[i].code
  {
    if regions == [] then [] else [regions[0].code] + Codes(regions[1..])
  }

  /** The number a code spells after its `BG` prefix, two digits for a region and three for a district; -1 otherwise. */
  function CodeNumber(code: string): int
  {
    if |code| == 5 && IsDigit(code[2]) && IsDigit(code[3]) && IsDigit(code[4]) then
      100 * DigitValue(code[2]) + 10 * DigitValue(code[3]) + DigitValue(code[4])
    else if |code| == 4 && IsDigit(code[2]) && IsDigit(code[3]) then
      1000 + 10 * DigitValue(code[2]) + DigitValue(code[3])
    else -1
  }

  /** The table position of the unit whose code spells n; -1 for any other number. */
  function Slot(n: int): int
  {
    if n == 411 then 0 else if n == 412 then 1 else if n == 421 then 2 else if n == 422 then 3
    else if n == 423 then 4 else if n == 424 then 5 else if n == 425 then 6 else if n == 331 then 7
    else if n == 332 then 8 else if n == 341 then 9 else if n == 342 then 10 else if n == 343 then 11
    else if n == 344 then 12 else if n == 311 then 13 else if n == 312 then 14 else if n == 313 then 15
    else if n == 321 then 16 else if n == 322 then 17 else if n == 323 then 18 else if n == 324 then 19
    else if n == 325 then 20 else if n == 326 then 21 else if n == 327 then 22 else if n == 413 then 23
    else if n == 414 then 24 else if n == 415 then 25 else if n == 416 then 26 else if n == 417 then 27
    else if n == 1041 then 28 else if n == 1042 then 29 else if n == 1033 then 30 else if n == 1034 then 31
    else if n == 1031 then 32 else if n == 1032 then 33 else -1
  }

  /** `BG` and two or three digits. */
  predicate CodeShaped(code: string)
  {
    && (|code| == 4 || |code| == 5) && code[0] == 'B' && code[1] == 'G'
    && IsDigit(code[2]) && IsDigit(code[3]) && (|code| == 5 ==> IsDigit(code[4]))
  }

  /** A code is `BG` and two or three digits; no name has a digit where a code has its first one. */
  predicate WellShaped(r: RegionMapping)
  {
    && CodeShaped(r.code)
    && |r.bg| >= 3 && !IsDigit(r.bg[2])
    && |r.en| >= 3 && !IsDigit(r.en[2])
    && r.nuts == r.code
  }

  predicate AllWellShaped(regions: seq<RegionMapping>)
  {
    forall i :: 0 <= i < |regions| ==> WellShaped(regions[i])
  }

  /** No two units share a code. */
  predicate UniqueCodes(regions: seq<RegionMapping>)
  {
    forall i, j :: 0 <= i < j < |regions| ==> regions[i].code != regions[j].code
  }

  /** Each unit's code is well formed and doubles as its NUTS code. */
  lemma UnitCodeShaped(u: Unit)
    ensures CodeShaped(MappingOf(u).code) && MappingOf(u).nuts == MappingOf(u).code
  {
    if Position(u) < 6 {
      UnitCodeShapedA(u);
    } else if Position(u) < 12 {
      UnitCodeShapedB(u);
    } else if Position(u) < 18 {
      UnitCodeShapedC(u);
    } else if Position(u) < 24 {
      UnitCodeShapedD(u);
    } else if Position(u) < 29 {
      UnitCodeShapedE(u);
    } else {
      UnitCodeShapedF(u);
    }
  }

  lemma UnitCodeShapedA(u: Unit)
    requires 0 <= Position(u) < 6
    ensures CodeShaped(MappingOf(u).code) && MappingOf(u).nuts == MappingOf(u).code
  {
    match u
    case SofiaCity =>
    case SofiaProvince =>
    case Plovdiv =>
    case Haskovo =>
    case Pazardzhik =>
    case Smolyan =>
  }

  lemma UnitCodeShapedB(u: Unit)
    requires 6 <= Position(u) < 12
    ensures CodeShaped(MappingOf(u).code) && MappingOf(u).nuts == MappingOf(u).code
  {
    match u
    case Kardzhali =>
    case Varna =>
    case Dobrich =>
    case Burgas =>
    case Sliven =>
    case Yambol =>
  }

  lemma UnitCodeShapedC(u: Unit)
    requires 12 <= Position(u) < 18
    ensures CodeShaped(MappingOf(u).code) && MappingOf(u).nuts == MappingOf(u).code
  {
    match u
    case StaraZagora =>
    case Vidin =>
    case Montana =>
    case Vratsa =>
    case Pleven =>
    case VelikoTarnovo =>
  }

  lemma UnitCodeShapedD(u: Unit)
    requires 18 <= Position(u) < 24
    ensures CodeShaped(MappingOf(u).code) && MappingOf(u).nuts == MappingOf(u).code
  {
    match u
    case Gabrovo =>
    case Ruse =>
    case Razgrad =>
    case Silistra =>
    case Targovishte =>
    case Blagoevgrad =>
  }

  lemma UnitCodeShapedE(u: Unit)
    requires 24 <= Position(u) < 29
    ensures CodeShaped(MappingOf(u).code) && MappingOf(u).nuts == MappingOf(u).code
  {
    match u
    case Pernik =>
    case Kyustendil =>
    case Lovech =>
    case Shumen =>
    case Southwestern =>
  }

  lemma UnitCodeShapedF(u: Unit)
    requires 29 <= Position(u) < 34
    ensures CodeShaped(MappingOf(u).code) && MappingOf(u).nuts == MappingOf(u).code
  {
    match u
    case SouthCentral =>
    case Northeastern =>
    case Southeastern =>
    case Northwestern =>
    case NorthCentral =>
  }

  /** Each Bulgarian name has no digit where a code has its first one. */
  lemma UnitBgShaped(u: Unit)
    ensures |MappingOf(u).bg| >= 3 && !IsDigit(MappingOf(u).bg[2])
  {
    if Position(u) < 6 {
      UnitBgShapedA(u);
    } else if Position(u) < 12 {
      UnitBgShapedB(u);
    } else if Position(u) < 18 {
      UnitBgShapedC(u);
    } else if Position(u) < 24 {
      UnitBgShapedD(u);
    } else if Position(u) < 29 {
      UnitBgShapedE(u);
    } else {
      UnitBgShapedF(u);
    }
  }

  lemma UnitBgShapedA(u: Unit)
    requires 0 <= Position(u) < 6
    ensures |MappingOf(u).bg| >= 3 && !IsDigit(MappingOf(u).bg[2])
  {
    match u
    case SofiaCity =>
    case SofiaProvince =>
    case Plovdiv =>
    case Haskovo =>
    case Pazardzhik =>
    case Smolyan =>
  }

  lemma UnitBgShapedB(u: Unit)
    requires 6 <= Position(u) < 12
    ensures |MappingOf(u).bg| >= 3 && !IsDigit(MappingOf(u).bg[2])
  {
    match u
    case Kardzhali =>
    case Varna =>
    case Dobrich =>
    case Burgas =>
    case Sliven =>
    case Yambol =>
  }

  lemma UnitBgShapedC(u: Unit)
    requires 12 <= Position(u) < 18
    ensures |MappingOf(u).bg| >= 3 && !IsDigit(MappingOf(u).bg[2])
  {
    match u
    case StaraZagora =>
    case Vidin =>
    case Montana =>
    case Vratsa =>
    case Pleven =>
    case VelikoTarnovo =>
  }

  lemma UnitBgShapedD(u: Unit)
    requires 18 <= Position(u) < 24
    ensures |MappingOf(u).bg| >= 3 && !IsDigit(MappingOf(u).bg[2])
  {
    match u
    case Gabrovo =>
    case Ruse =>
    case Razgrad =>
    case Silistra =>
    case Targovishte =>
    case Blagoevgrad =>
  }

  lemma UnitBgShapedE(u: Unit)
    requires 24 <= Position(u) < 29
    ensures |MappingOf(u).bg| >= 3 && !IsDigit(MappingOf(u).bg[2])
  {
    match u
    case Pernik =>
    case Kyustendil =>
    case Lovech =>
    case Shumen =>
    case Southwestern =>
  }

  lemma UnitBgShapedF(u: Unit)
    requires 29 <= Position(u) < 34
    ensures |MappingOf(u).bg| >= 3 && !IsDigit(MappingOf(u).bg[2])
  {
    match u
    case SouthCentral =>
    case Northeastern =>
    case Southeastern =>
    case Northwestern =>
    case NorthCentral =>
  }

  /** Each English name has no digit where a code has its first one. */
  lemma UnitEnShaped(u: Unit)
    ensures |MappingOf(u).en| >= 3 && !IsDigit(MappingOf(u).en[2])
  {
    if Position(u) < 6 {
      UnitEnShapedA(u);
    } else if Position(u) < 12 {
      UnitEnShapedB(u);
    } else if Position(u) < 18 {
      UnitEnShapedC(u);
    } else if Position(u) < 24 {
      UnitEnShapedD(u);
    } else if Position(u) < 29 {
      UnitEnShapedE(u);
    } else {
      UnitEnShapedF(u);
    }
  }

  lemma UnitEnShapedA(u: Unit)
    requires 0 <= Position(u) < 6
    ensures |MappingOf(u).en| >= 3 && !IsDigit(MappingOf(u).en[2])
  {
    match u
    case SofiaCity =>
    case SofiaProvince =>
    case Plovdiv =>
    case Haskovo =>
    case Pazardzhik =>
    case Smolyan =>
  }

  lemma UnitEnShapedB(u: Unit)
    requires 6 <= Position(u) < 12
    ensures |MappingOf(u).en| >= 3 && !IsDigit(MappingOf(u).en[2])
  {
    match u
    case Kardzhali =>
    case Varna =>
    case Dobrich =>
    case Burgas =>
    case Sliven =>
    case Yambol =>
  }

  lemma UnitEnShapedC(u: Unit)
    requires 12 <= Position(u) < 18
    ensures |MappingOf(u).en| >= 3 && !IsDigit(MappingOf(u).en[2])
  {
    match u
    case StaraZagora =>
    case Vidin =>
    case Montana =>
    case Vratsa =>
    case Pleven =>
    case VelikoTarnovo =>
  }

  lemma UnitEnShapedD(u: Unit)
    requires 18 <= Position(u) < 24
    ensures |MappingOf(u).en| >= 3 && !IsDigit(MappingOf(u).en[2])
  {
    match u
    case Gabrovo =>
    case Ruse =>
    case Razgrad =>
    case Silistra =>
    case Targovishte =>
    case Blagoevgrad =>
  }

  lemma UnitEnShapedE(u: Unit)
    requires 24 <= Position(u) < 29
    ensures |MappingOf(u).en| >= 3 && !IsDigit(MappingOf(u).en[2])
  {
    match u
    case Pernik =>
    case Kyustendil =>
    case Lovech =>
    case Shumen =>
    case Southwestern =>
  }

  lemma UnitEnShapedF(u: Unit)
    requires 29 <= Position(u) < 34
    ensures |MappingOf(u).en| >= 3 && !IsDigit(MappingOf(u).en[2])
  {
    match u
    case SouthCentral =>
    case Northeastern =>
    case Southeastern =>
    case Northwestern =>
    case NorthCentral =>
  }

  lemma UnitsWellShaped()
    ensures forall u :: WellShaped(MappingOf(u))
  {
    forall u ensures WellShaped(MappingOf(u)) {
      UnitCodeShaped(u);
      UnitBgShaped(u);
      UnitEnShaped(u);
    }
  }

  /** A unit's code number leads back to its position. */
  lemma UnitSlot(u: Unit)
    ensures Slot(CodeNumber(MappingOf(u).code)) == Position(u)
  {
    if Position(u) < 6 {
      UnitSlotA(u);
    } else if Position(u) < 12 {
      UnitSlotB(u);
    } else if Position(u) < 18 {
      UnitSlotC(u);
    } else if Position(u) < 24 {
      UnitSlotD(u);
    } else if Position(u) < 29 {
      UnitSlotE(u);
    } else {
      UnitSlotF(u);
    }
  }

  lemma UnitSlotA(u: Unit)
    requires 0 <= Position(u) < 6
    ensures Slot(CodeNumber(MappingOf(u).code)) == Position(u)
  {
    match u
    case SofiaCity =>
    case SofiaProvince =>
    case Plovdiv =>
    case Haskovo =>
    case Pazardzhik =>
    case Smolyan =>
  }

  lemma UnitSlotB(u: Unit)
    requires 6 <= Position(u) < 12
    ensures Slot(CodeNumber(MappingOf(u).code)) == Position(u)
  {
    match u
    case Kardzhali =>
    case Varna =>
    case Dobrich =>
    case Burgas =>
    case Sliven =>
    case Yambol =>
  }

  lemma UnitSlotC(u: Unit)
    requires 12 <= Position(u) < 18
    ensures Slot(CodeNumber(MappingOf(u).code)) == Position(u)
  {
    match u
    case StaraZagora =>
    case Vidin =>
    case Montana =>
    case Vratsa =>
    case Pleven =>
    case VelikoTarnovo =>
  }

  lemma UnitSlotD(u: Unit)
    requires 18 <= Position(u) < 24
    ensures Slot(CodeNumber(MappingOf(u).code)) == Position(u)
  {
    match u
    case Gabrovo =>
    case Ruse =>
    case Razgrad =>
    case Silistra =>
    case Targovishte =>
    case Blagoevgrad =>
  }

  lemma UnitSlotE(u: Unit)
    requires 24 <= Position(u) < 29
    ensures Slot(CodeNumber(MappingOf(u).code)) == Position(u)
  {
    match u
    case Pernik =>
    case Kyustendil =>
    case Lovech =>
    case Shumen =>
    case Southwestern =>
  }

  lemma UnitSlotF(u: Unit)
    requires 29 <= Position(u) < 34
    ensures Slot(CodeNumber(MappingOf(u).code)) == Position(u)
  {
    match u
    case SouthCentral =>
    case Northeastern =>
    case Southeastern =>
    case Northwestern =>
    case NorthCentral =>
  }

  lemma UnitSlots()
    ensures forall u :: Slot(CodeNumber(MappingOf(u).code)) == Position(u)
  {
    forall u ensures Slot(CodeNumber(MappingOf(u).code)) == Position(u) {
      UnitSlot(u);
    }
  }

  /** Districts come first, and only districts have five-character codes. */
  lemma UnitLevels()
    ensures forall u :: (MappingOf(u).kind == District) == (Position(u) < 28)
    ensures forall u :: (|MappingOf(u).code| == 5) == (Position(u) < 28)
  {
  }

  function UnitAt(i: nat): Unit
    requires i < 34
  {
    match i
    case 0 => SofiaCity
    case 1 => SofiaProvince
    case 2 => Plovdiv
    case 3 => Haskovo
    case 4 => Pazardzhik
    case 5 => Smolyan
    case 6 => Kardzhali
    case 7 => Varna
    case 8 => Dobrich
    case 9 => Burgas
    case 10 => Sliven
    case 11 => Yambol
    case 12 => StaraZagora
    case 13 => Vidin
    case 14 => Montana
    case 15 => Vratsa
    case 16 => Pleven
    case 17 => VelikoTarnovo
    case 18 => Gabrovo
    case 19 => Ruse
    case 20 => Razgrad
    case 21 => Silistra
    case 22 => Targovishte
    case 23 => Blagoevgrad
    case 24 => Pernik
    case 25 => Kyustendil
    case 26 => Lovech
    case 27 => Shumen
    case 28 => Southwestern
    case 29 => SouthCentral
    case 30 => Northeastern
    case 31 => Southeastern
    case 32 => Northwestern
    case _ => NorthCentral
  }

  lemma UnitAtPosition(i: nat)
    requires i < 34
    ensures Position(UnitAt(i)) == i
  {
  }

  /** Entry i of the joined table is the unit at position i. */
  lemma RegionAt(i: nat)
    requires i < |AllRegions()|
    ensures |AllRegions()| == 34
    ensures AllRegions()[i] == MappingOf(UnitAt(i)) && Position(UnitAt(i)) == i
  {
    UnitAtPosition(i);
    if i < 28 {
      assert AllRegions()[i] == Districts()[i];
    } else {
      assert AllRegions()[i] == StatRegions()[i - 28];
    }
  }

  /** Both tables together: well shaped, and no code twice. */
  lemma TableShape()
    ensures AllWellShaped(AllRegions())
    ensures UniqueCodes(AllRegions())
  {
    UnitsWellShaped();
    var all := AllRegions();
    forall i | 0 <= i < |all| ensures WellShaped(all[i]) {
      RegionAt(i);
    }
    TableUniqueCodes();
  }

  lemma TableUniqueCodes()
    ensures UniqueCodes(AllRegions())
  {
    UnitSlots();
    var all := AllRegions();
    forall i, j | 0 <= i < j < |all| ensures all[i].code != all[j].code {
      RegionAt(i);
      RegionAt(j);
    }
  }

  /** The districts are all of district level and have five-character codes; the regions, four. */
  lemma TableLevels()
    ensures |Districts()| == 28 && |StatRegions()| == 6
    ensures forall i :: 0 <= i < |Districts()| ==> Districts()[i].kind == District && |Districts()[i].code| == 5
    ensures forall i :: 0 <= i < |StatRegions()| ==> StatRegions()[i].kind == StatRegion && |StatRegions()[i].code| == 4
  {
    UnitLevels();
    forall i | 0 <= i < 34 ensures Position(UnitAt(i)) == i {
      UnitAtPosition(i);
    }
  }

  lemma UniqueCodesDistinct(regions: seq<RegionMapping>)
    requires UniqueCodes(regions)
    ensures NoDuplicates(Codes(regions))
  {
  }

  /** Region codes across both tables are pairwise distinct, so a code names at most one unit. */
  lemma CodesDistinct()
    ensures NoDuplicates(Codes(AllRegions()))
  {
    TableUniqueCodes();
    UniqueCodesDistinct(AllRegions());
  }

  /** Lower-casing leaves a digit alone. */
  lemma DigitUnchanged(c: char)
    requires IsDigit(c)
    ensures LowerChar(c) == c
  {
  }

  /** Lower-casing never makes a digit of anything else. */
  lemma NoNewDigit(c: char)
    requires !IsDigit(c)
    ensures !IsDigit(LowerChar(c))
  {
  }

  /** Two well-shaped codes that lower alike are the same code. */
  lemma SameLoweredCode(a: string, b: string)
    requires CodeShaped(a) && CodeShaped(b)
    requires ToLower(a) == ToLower(b)
    ensures a == b
  {
    forall k | 2 <= k < |a| ensures a[k] == b[k] {
      DigitUnchanged(a[k]);
      DigitUnchanged(b[k]);
      assert ToLower(a)[k] == ToLower(b)[k];
    }
    assert a[0] == b[0] && a[1] == b[1];
  }

  /** Two different well-shaped codes stay different when lower-cased. */
  lemma CodesLowerApart(a: string, b: string)
    requires CodeShaped(a) && CodeShaped(b) && a != b
    ensures ToLower(a) != ToLower(b)
  {
    if ToLower(a) == ToLower(b) {
      SameLoweredCode(a, b);
    }
  }

  /** `name.toLowerCase().trim()`. */
  function Normalized(name: string): string
  {
    Trim(ToLower(name))
  }

  /** The unit's Bulgarian name, English name or code, lower-cased, is n. */
  predicate NameMatches(r: RegionMapping, n: string)
  {
    ToLower(r.bg) == n || ToLower(r.en) == n || ToLower(r.code) == n
  }

  /** Unit i is the first in the list that n matches. */
  predicate FirstMatchAt(regions: seq<RegionMapping>, n: string, i: int)
  {
    0 <= i < |regions| && NameMatches(regions[i], n)
    && forall j :: 0 <= j < i ==> !NameMatches(regions[j], n)
  }

  /** findRegionByName over a unit list: the first unit whose name or code matches the normalised name. */
  function FindByName(regions: seq<RegionMapping>, name: string): (r: Option<RegionMapping>)
    ensures r.None? <==> forall i :: 0 <= i < |regions| ==> !NameMatches(regions[i], Normalized(name))
    ensures r.Some? ==> exists i :: FirstMatchAt(regions, Normalized(name), i) && r.value == regions[i]
  {
    FindIn(regions, Normalized(name))
  }

  function FindIn(regions: seq<RegionMapping>, n: string): (r: Option<RegionMapping>)
    ensures r.None? <==> forall i :: 0 <= i < |regions| ==> !NameMatches(regions[i], n)
    ensures r.Some? ==> exists i :: FirstMatchAt(regions, n, i) && r.value == regions[i]
    ensures r.Some? ==> r.value in regions
  {
    if regions == [] then None
    else if NameMatches(regions[0], n) then
      assert FirstMatchAt(regions, n, 0);
      Some(regions[0])
    else
      var r := FindIn(regions[1..], n);
      if r.Some? then
        var i :| FirstMatchAt(regions[1..], n, i) && r.value == regions[1..][i];
        assert FirstMatchAt(regions, n, i + 1);
        r
      else r
  }

  /** findRegionByName: districts are searched before statistical regions. */
  function FindRegionByName(name: string): Option<RegionMapping>
  {
    FindByName(AllRegions(), name)
  }

  /** Case does not matter: a name and its lower-cased form find the same unit. */
  lemma FindIgnoresCase(regions: seq<RegionMapping>, name: string)
    ensures FindByName(regions, ToLower(name)) == FindByName(regions, name)
  {
    ToLowerIdempotent(name);
  }

  /** White space around the name does not matter. */
  lemma FindIgnoresSurroundingSpace(regions: seq<RegionMapping>, c: char, name: string, d: char)
    requires IsSpace(c) && IsSpace(d)
    ensures FindByName(regions, [c] + name + [d]) == FindByName(regions, name)
  {
    LowerSpace(c);
    LowerSpace(d);
    ToLowerAppend([c] + name, [d]);
    ToLowerAppend([c], name);
    assert ToLower([c]) == [c];
    assert ToLower([d]) == [d];
    TrimSnoc([c] + ToLower(name), d);
    TrimCons(c, ToLower(name));
  }

  /** When some unit of the first list matches, the second list is never consulted. */
  lemma {:induction false} FindInFirstPart(ds: seq<RegionMapping>, rs: seq<RegionMapping>, n: string, i: nat)
    requires i < |ds| && NameMatches(ds[i], n)
    ensures FindIn(ds + rs, n) == FindIn(ds, n)
  {
    assert (ds + rs)[0] == ds[0];
    if !NameMatches(ds[0], n) {
      assert (ds + rs)[1..] == ds[1..] + rs;
      FindInFirstPart(ds[1..], rs, n, i - 1);
    }
  }

  /** When no unit of the first list matches, the answer comes from the second list. */
  lemma {:induction false} FindInSecondPart(ds: seq<RegionMapping>, rs: seq<RegionMapping>, n: string)
    requires forall i :: 0 <= i < |ds| ==> !NameMatches(ds[i], n)
    ensures FindIn(ds + rs, n) == FindIn(rs, n)
  {
    if ds != [] {
      assert (ds + rs)[0] == ds[0];
      assert (ds + rs)[1..] == ds[1..] + rs;
      FindInSecondPart(ds[1..], rs, n);
    } else {
      assert ds + rs == rs;
    }
  }

  /** Districts are searched first: when a district matches, the answer is the first matching district. */
  lemma DistrictsSearchedFirst(name: string, i: nat)
    requires i < |Districts()| && NameMatches(Districts()[i], Normalized(name))
    ensures FindRegionByName(name) == FindByName(Districts(), name)
    ensures FindRegionByName(name).Some? && FindRegionByName(name).value.kind == District
  {
    FindInFirstPart(Districts(), StatRegions(), Normalized(name), i);
    var r := FindIn(Districts(), Normalized(name));
    assert r.Some? && r.value in Districts();
    DistrictsAreDistricts(r.value);
  }

  lemma DistrictsAreDistricts(r: RegionMapping)
    requires r in Districts()
    ensures r.kind == District
  {
    TableLevels();
  }

  /** A name no district matches is looked up among the statistical regions. */
  lemma RegionsSearchedSecond(name: string)
    requires forall i :: 0 <= i < |Districts()| ==> !NameMatches(Districts()[i], Normalized(name))
    ensures FindRegionByName(name) == FindByName(StatRegions(), name)
  {
    FindInSecondPart(Districts(), StatRegions(), Normalized(name));
  }

  /** A string without white space at either end trims to itself. */
  lemma TrimUnspaced(s: string)
    requires s == [] || (!IsSpace(s[0]) && !IsSpace(s[|s| - 1]))
    ensures Trim(s) == s
  {
  }

  /** The first match is the one FindIn returns. */
  lemma FindInAt(regions: seq<RegionMapping>, n: string, i: int)
    requires FirstMatchAt(regions, n, i)
    ensures FindIn(regions, n) == Some(regions[i])
  {
    var r := FindIn(regions, n);
    var k :| FirstMatchAt(regions, n, k) && r.value == regions[k];
    assert !(k < i) && !(i < k);
  }

  /** A well-shaped code lower-cases to a string with a digit at index 2 that trims to itself. */
  lemma LoweredCode(code: string)
    requires CodeShaped(code)
    ensures |ToLower(code)| >= 4 && IsDigit(ToLower(code)[2])
    ensures Normalized(code) == ToLower(code)
  {
    var n := ToLower(code);
    var last := |code| - 1;
    assert n[2] == LowerChar(code[2]) && n[last] == LowerChar(code[last]);
    DigitUnchanged(code[2]);
    DigitUnchanged(code[last]);
    LowerB(n[0], code[0]);
    DigitNotSpace(n[last]);
    TrimUnspaced(n);
  }

  lemma LowerB(l: char, c: char)
    requires c == 'B' && l == LowerChar(c)
    ensures !IsSpace(l)
  {
  }

  lemma DigitNotSpace(c: char)
    requires IsDigit(c)
    ensures !IsSpace(c)
  {
  }

  /** A well-shaped unit's names never lower to a well-shaped code. */
  lemma NamesUnlikeCodes(r: RegionMapping, s: string)
    requires WellShaped(r)
    requires |s| >= 3 && IsDigit(s[2])
    ensures ToLower(r.bg) != s && ToLower(r.en) != s
  {
    NoNewDigit(r.bg[2]);
    NoNewDigit(r.en[2]);
  }

  /** Another unit's names and code all differ from a unit's lowered code. */
  lemma OtherUnitMisses(regions: seq<RegionMapping>, i: nat, j: nat)
    requires AllWellShaped(regions) && UniqueCodes(regions)
    requires i < |regions| && j < |regions| && i != j
    ensures !NameMatches(regions[j], ToLower(regions[i].code))
  {
    assert WellShaped(regions[i]) && WellShaped(regions[j]);
    assert regions[i].code != regions[j].code;
    Misses(regions[i], regions[j]);
  }

  lemma Misses(a: RegionMapping, b: RegionMapping)
    requires WellShaped(a) && WellShaped(b) && a.code != b.code
    ensures !NameMatches(b, ToLower(a.code))
  {
    LoweredCode(a.code);
    NamesUnlikeCodes(b, ToLower(a.code));
    CodesLowerApart(a.code, b.code);
  }

  /** No unit before unit i matches unit i's lowered code. */
  lemma EarlierUnitsMiss(regions: seq<RegionMapping>, i: nat)
    requires AllWellShaped(regions) && UniqueCodes(regions)
    requires i < |regions|
    ensures forall j :: 0 <= j < i ==> !NameMatches(regions[j], ToLower(regions[i].code))
  {
    forall j | 0 <= j < i ensures !NameMatches(regions[j], ToLower(regions[i].code)) {
      OtherUnitMisses(regions, i, j);
    }
  }

  lemma FindLoweredCode(regions: seq<RegionMapping>, i: nat)
    requires AllWellShaped(regions) && UniqueCodes(regions)
    requires i < |regions|
    ensures FindIn(regions, ToLower(regions[i].code)) == Some(regions[i])
  {
    var n := ToLower(regions[i].code);
    EarlierUnitsMiss(regions, i);
    assert NameMatches(regions[i], n);
    assert FirstMatchAt(regions, n, i);
    FindInAt(regions, n, i);
  }

  /** In a well-shaped table without a repeated code, looking up a unit's code finds that unit. */
  lemma FindByCodeIn(regions: seq<RegionMapping>, i: nat)
    requires AllWellShaped(regions) && UniqueCodes(regions)
    requires i < |regions|
    ensures FindByName(regions, regions[i].code) == Some(regions[i])
  {
    FindLoweredCode(regions, i);
    assert WellShaped(regions[i]);
    LoweredCode(regions[i].code);
  }

  /** Looking up any unit's code finds that unit: no name reads like a code, and no code is used twice. */
  lemma FindByCode(i: nat)
    requires i < |AllRegions()|
    ensures FindRegionByName(AllRegions()[i].code) == Some(AllRegions()[i])
  {
    TableShape();
    FindByCodeIn(AllRegions(), i);
  }

  /** `list.find(r => r.code === code)`: the unit with the code, the first one if several. */
  function UnitWithCode(regions: seq<RegionMapping>, code: string): (r: Option<RegionMapping>)
    ensures r.None? <==> code !in Codes(regions)
    ensures NoDuplicates(Codes(regions)) ==>
      forall i :: 0 <= i < |regions| && regions[i].code == code ==> r == Some(regions[i])
  {
    var r := FindFirst(regions, (region: RegionMapping) => region.code == code);
    if NoDuplicates(Codes(regions)) && r.Some? then
      var k :| 0 <= k < |regions| && regions[k] == r.value && regions[k].code == code;
      assert forall i :: 0 <= i < |regions| && regions[i].code == code ==> i == k by {
        forall i | 0 <= i < |regions| && regions[i].code == code ensures i == k {
          assert Codes(regions)[i] == Codes(regions)[k];
        }
      }
      r
    else
      r
  }

  /** getRegionName over a unit list: the unit's name in the locale for a known code, the code itself otherwise. */
  function RegionName(regions: seq<RegionMapping>, code: string, locale: Locale): (r: string)
    ensures code !in Codes(regions) ==> r == code
    ensures NoDuplicates(Codes(regions)) ==>
      forall i :: 0 <= i < |regions| && regions[i].code == code ==> r == regions[i].Name(locale)
  {
    match UnitWithCode(regions, code)
    case Some(region) => region.Name(locale)
    case None => code
  }

  /** getRegionName. */
  function GetRegionName(code: string, locale: Locale): string
  {
    RegionName(AllRegions(), code, locale)
  }

  /** Every code of the table names its own unit; any other string names itself. */
  lemma GetRegionNameExact(code: string, locale: Locale)
    ensures code !in Codes(AllRegions()) ==> GetRegionName(code, locale) == code
    ensures forall i :: 0 <= i < |AllRegions()| && AllRegions()[i].code == code ==>
      GetRegionName(code, locale) == AllRegions()[i].Name(locale)
  {
    CodesDistinct();
  }

  /** normalizeRegionName over a unit list: the found unit's name in the target locale, the input otherwise. */
  function NormalizeName(regions: seq<RegionMapping>, name: string, fromLocale: Locale, toLocale: Locale): (r: string)
    ensures FindByName(regions, name).Some? ==> r == FindByName(regions, name).value.Name(toLocale)
    ensures FindByName(regions, name).None? ==> r == name
  {
    match FindByName(regions, name)
    case Some(region) => region.Name(toLocale)
    case None => name
  }

  /** normalizeRegionName. */
  function NormalizeRegionName(name: string, fromLocale: Locale, toLocale: Locale): string
  {
    NormalizeName(AllRegions(), name, fromLocale, toLocale)
  }

  /** A code normalises to its unit's name in the target locale, whatever the source locale. */
  lemma NormalizeCode(i: nat, fromLocale: Locale, toLocale: Locale)
    requires i < |AllRegions()|
    ensures NormalizeRegionName(AllRegions()[i].code, fromLocale, toLocale) == AllRegions()[i].Name(toLocale)
  {
    FindByCode(i);
  }

  /** The source locale never changes the answer. */
  lemma NormalizeIgnoresSourceLocale(regions: seq<RegionMapping>, name: string, toLocale: Locale)
    ensures NormalizeName(regions, name, Bg, toLocale) == NormalizeName(regions, name, En, toLocale)
  {
  }

  /** getAllRegionCodes: the district codes, in table order; no statistical region's code. */
  function GetAllRegionCodes(): (codes: seq<string>)
    ensures |codes| == 28
    ensures forall i :: 0 <= i < 28 ==> codes[i] == Districts()[i].code
    ensures forall i :: 0 <= i < |StatRegions()| ==> StatRegions()[i].code !in codes
    ensures NoDuplicates(codes)
  {
    DistrictCodes();
    Codes(Districts())
  }

  lemma DistrictCodes()
    ensures |Codes(Districts())| == 28
    ensures forall i :: 0 <= i < |StatRegions()| ==> StatRegions()[i].code !in Codes(Districts())
    ensures NoDuplicates(Codes(Districts()))
  {
    TableUniqueCodes();
    var all := AllRegions();
    assert all[..28] == Districts();
    PrefixCodesApart(all, 28);
    UniqueCodesDistinct(Districts());
    forall i | 0 <= i < |StatRegions()| ensures StatRegions()[i].code !in Codes(Districts()) {
      assert StatRegions()[i] == all[28 + i];
    }
  }

  /** A prefix of a list without repeated codes has none either, and shares no code with the rest. */
  lemma PrefixCodesApart(regions: seq<RegionMapping>, n: nat)
    requires UniqueCodes(regions) && n <= |regions|
    ensures UniqueCodes(regions[..n])
    ensures forall i :: n <= i < |regions| ==> regions[i].code !in Codes(regions[..n])
  {
  }

  /** The error mapDataToRegions throws: a truthy region cell that is not a string has no `toLowerCase`. */
  datatype MapError = RegionNotString

  /** `parseFloat(v)` on a cell, integer part only: None is NaN. */
  function ParseNumber(v: Val): (r: Option<int>)
    ensures v.Num? ==> r == Some(v.n)
    ensures v.Str? ==> r == ParseInt(v.s)
    ensures v.Null? ==> r.None?
  {
    match v
    case Str(s) => ParseInt(s)
    case Num(n) => Some(n)
    case Null => None
  }

  /** What one row contributes to the map: nothing, a unit's code and a value, or the error. */
  function RowContribution(regions: seq<RegionMapping>, row: Row, regionKey: string, valueKey: string): (r: Result<Option<(string, int)>, MapError>)
    ensures !Truthy(Get(row, regionKey)) || ParseNumber(Get(row, valueKey)).None? ==> r == Ok(None)
    ensures r.Err? <==> Get(row, regionKey).Num? && Truthy(Get(row, regionKey)) && ParseNumber(Get(row, valueKey)).Some?
    ensures Get(row, regionKey).Str? && FindByName(regions, Get(row, regionKey).s).None? ==> r == Ok(None)
    ensures r.Ok? && r.value.Some? ==>
      && Get(row, regionKey).Str?
      && FindByName(regions, Get(row, regionKey).s).Some?
      && r.value.value.0 == FindByName(regions, Get(row, regionKey).s).value.code
      && r.value.value.0 in Codes(regions)
      && ParseNumber(Get(row, valueKey)) == Some(r.value.value.1)
  {
    var name := Get(row, regionKey);
    var value := ParseNumber(Get(row, valueKey));
    if !Truthy(name) || value.None? then Ok(None)
    else
      match name
      case Str(s) =>
        (match FindByName(regions, s)
         case Some(region) => Ok(Some((region.code, value.value)))
         case None => Ok(None))
      case Num(_) => Err(RegionNotString)
      case Null => Ok(None)
  }

  /** The map after one row's contribution, or the row's error. */
  function Step(m: Row, c: Result<Option<(string, int)>, MapError>): Result<Row, MapError>
  {
    match c
    case Err(e) => Err(e)
    case Ok(None) => Ok(m)
    case Ok(Some(entry)) => Ok(Assign(m, entry.0, Num(entry.1)))
  }

  /** The Map mapDataToRegions builds, as a record of Num values in insertion order; or the error it throws. */
  function RegionData(regions: seq<RegionMapping>, data: seq<Row>, regionKey: string, valueKey: string): Result<Row, MapError>
  {
    if data == [] then Ok([])
    else
      match RegionData(regions, data[..|data| - 1], regionKey, valueKey)
      case Err(e) => Err(e)
      case Ok(m) => Step(m, RowContribution(regions, data[|data| - 1], regionKey, valueKey))
  }

  /** The value of the last row that contributes code, if any. */
  function LastValue(regions: seq<RegionMapping>, data: seq<Row>, regionKey: string, valueKey: string, code: string): Option<int>
  {
    if data == [] then None
    else
      var c := RowContribution(regions, data[|data| - 1], regionKey, valueKey);
      if c.Ok? && c.value.Some? && c.value.value.0 == code then Some(c.value.value.1)
      else LastValue(regions, data[..|data| - 1], regionKey, valueKey, code)
  }

  /** A number as a cell, or Null (`map.get` of a missing key). */
  function AsCell(v: Option<int>): Val
  {
    match v
    case Some(n) => Num(n)
    case None => Null
  }

  /** The map's keys are codes of the table, each once; each code holds the value of the last row that named its unit. */
  lemma {:induction false} RegionDataMeaning(regions: seq<RegionMapping>, data: seq<Row>, regionKey: string, valueKey: string)
    requires RegionData(regions, data, regionKey, valueKey).Ok?
    ensures DistinctKeys(RegionData(regions, data, regionKey, valueKey).value)
    ensures forall k :: k in Keys(RegionData(regions, data, regionKey, valueKey).value) ==> k in Codes(regions)
    ensures forall code ::
      Get(RegionData(regions, data, regionKey, valueKey).value, code) == AsCell(LastValue(regions, data, regionKey, valueKey, code))
  {
    if data != [] {
      var prefix := data[..|data| - 1];
      RegionDataMeaning(regions, prefix, regionKey, valueKey);
      var m := RegionData(regions, prefix, regionKey, valueKey).value;
      match RowContribution(regions, data[|data| - 1], regionKey, valueKey)
      case Ok(None) =>
      case Ok(Some(entry)) =>
        AssignKeepsDistinctKeys(m, entry.0, Num(entry.1));
    }
  }

  /** A row that contributes nothing leaves the map as it was. */
  lemma SkippedRow(regions: seq<RegionMapping>, data: seq<Row>, row: Row, regionKey: string, valueKey: string)
    requires RowContribution(regions, row, regionKey, valueKey) == Ok(None)
    ensures RegionData(regions, data + [row], regionKey, valueKey) == RegionData(regions, data, regionKey, valueKey)
  {
    assert (data + [row])[..|data|] == data;
  }

  /** A later row for the same unit overwrites the earlier value, keeping the key's place. */
  lemma LaterRowOverwrites(regions: seq<RegionMapping>, data: seq<Row>, row: Row, regionKey: string, valueKey: string, code: string, v: int)
    requires RegionData(regions, data, regionKey, valueKey).Ok?
    requires RowContribution(regions, row, regionKey, valueKey) == Ok(Some((code, v)))
    ensures RegionData(regions, data + [row], regionKey, valueKey).Ok?
    ensures Get(RegionData(regions, data + [row], regionKey, valueKey).value, code) == Num(v)
    ensures code in Keys(RegionData(regions, data, regionKey, valueKey).value) ==>
      Keys(RegionData(regions, data + [row], regionKey, valueKey).value) == Keys(RegionData(regions, data, regionKey, valueKey).value)
  {
    assert (data + [row])[..|data|] == data;
  }

  /** A row with a truthy region cell that is a number, and a numeric value: `name.toLowerCase` is not a function. */
  predicate RowThrows(row: Row, regionKey: string, valueKey: string)
  {
    Get(row, regionKey).Num? && Truthy(Get(row, regionKey)) && ParseNumber(Get(row, valueKey)).Some?
  }

  /** The call throws exactly when some row has a truthy numeric region cell and a numeric value. */
  lemma RegionDataError(regions: seq<RegionMapping>, data: seq<Row>, regionKey: string, valueKey: string)
    ensures RegionData(regions, data, regionKey, valueKey).Err? <==>
      exists i :: 0 <= i < |data| && RowThrows(data[i], regionKey, valueKey)
  {
    if RegionData(regions, data, regionKey, valueKey).Err? {
      ErrorHasCause(regions, data, regionKey, valueKey);
    }
    if exists i :: 0 <= i < |data| && RowThrows(data[i], regionKey, valueKey) {
      var i :| 0 <= i < |data| && RowThrows(data[i], regionKey, valueKey);
      ThrowingRowFails(regions, data, regionKey, valueKey, i);
    }
  }

  /** An error comes from some row that throws. */
  lemma {:induction false} ErrorHasCause(regions: seq<RegionMapping>, data: seq<Row>, regionKey: string, valueKey: string)
    requires RegionData(regions, data, regionKey, valueKey).Err?
    ensures exists i :: 0 <= i < |data| && RowThrows(data[i], regionKey, valueKey)
  {
    var prefix := data[..|data| - 1];
    var last := |data| - 1;
    if RegionData(regions, prefix, regionKey, valueKey).Err? {
      ErrorHasCause(regions, prefix, regionKey, valueKey);
      var i :| 0 <= i < |prefix| && RowThrows(prefix[i], regionKey, valueKey);
      assert prefix[i] == data[i];
    } else {
      LastRowError(regions, data, regionKey, valueKey);
      assert RowThrows(data[last], regionKey, valueKey);
    }
  }

  /** A row that throws makes the whole call throw. */
  lemma {:induction false} ThrowingRowFails(regions: seq<RegionMapping>, data: seq<Row>, regionKey: string, valueKey: string, i: nat)
    requires i < |data| && RowThrows(data[i], regionKey, valueKey)
    ensures RegionData(regions, data, regionKey, valueKey).Err?
  {
    var prefix := data[..|data| - 1];
    if RegionData(regions, prefix, regionKey, valueKey).Err? {
      PrefixErrorPersists(regions, data, regionKey, valueKey);
    } else {
      LastRowError(regions, data, regionKey, valueKey);
      if i < |data| - 1 {
        assert prefix[i] == data[i];
        ThrowingRowFails(regions, prefix, regionKey, valueKey, i);
      }
    }
  }

  /** After an error-free prefix, the call throws exactly when the last row throws. */
  lemma LastRowError(regions: seq<RegionMapping>, data: seq<Row>, regionKey: string, valueKey: string)
    requires data != [] && RegionData(regions, data[..|data| - 1], regionKey, valueKey).Ok?
    ensures RegionData(regions, data, regionKey, valueKey).Err? <==> RowThrows(data[|data| - 1], regionKey, valueKey)
  {
  }

  /** An error in all rows but the last is the call's error. */
  lemma PrefixErrorPersists(regions: seq<RegionMapping>, data: seq<Row>, regionKey: string, valueKey: string)
    requires data != [] && RegionData(regions, data[..|data| - 1], regionKey, valueKey).Err?
    ensures RegionData(regions, data, regionKey, valueKey).Err?
  {
  }

  /** Once a prefix of the rows throws, so does the whole call. */
  lemma {:induction false} ErrorPersists(regions: seq<RegionMapping>, data: seq<Row>, n: nat, regionKey: string, valueKey: string)
    requires n <= |data| && RegionData(regions, data[..n], regionKey, valueKey).Err?
    ensures RegionData(regions, data, regionKey, valueKey) == RegionData(regions, data[..n], regionKey, valueKey)
  {
    if n < |data| {
      var prefix := data[..|data| - 1];
      assert prefix[..n] == data[..n];
      ErrorPersists(regions, prefix, n, regionKey, valueKey);
    } else {
      assert data[..n] == data;
    }
  }

  /** One more row: the map so far, updated by what the row contributes. */
  lemma RegionDataSnoc(regions: seq<RegionMapping>, data: seq<Row>, i: nat, regionKey: string, valueKey: string, m: Row)
    requires i < |data| && RegionData(regions, data[..i], regionKey, valueKey) == Ok(m)
    ensures RegionData(regions, data[..i + 1], regionKey, valueKey) == Step(m, RowContribution(regions, data[i], regionKey, valueKey))
  {
    assert data[..i + 1][..i] == data[..i];
  }

  /** mapDataToRegions: one pass over the rows, keying each numeric value by the code of the unit its row names. */
  method MapDataToRegions(data: seq<Row>, regionKey: string, valueKey: string) returns (r: Result<Row, MapError>)
    ensures r == RegionData(AllRegions(), data, regionKey, valueKey)
  {
    r := MapRows(AllRegions(), data, regionKey, valueKey);
  }

  /** The loop of mapDataToRegions over a given table. */
  method MapRows(regions: seq<RegionMapping>, data: seq<Row>, regionKey: string, valueKey: string) returns (r: Result<Row, MapError>)
    ensures r == RegionData(regions, data, regionKey, valueKey)
  {
    var regionData: Row := [];
    var i := 0;
    while i < |data|
      invariant i <= |data|
      invariant RegionData(regions, data[..i], regionKey, valueKey) == Ok(regionData)
    {
      RegionDataSnoc(regions, data, i, regionKey, valueKey, regionData);
      var c := MapRow(regions, data[i], regionKey, valueKey);
      if c.Err? {
        ErrorPersists(regions, data, i + 1, regionKey, valueKey);
        return Err(c.error);
      }
      if c.value.Some? {
        regionData := Assign(regionData, c.value.value.0, Num(c.value.value.1));
      }
      i := i + 1;
    }
    assert data[..i] == data;
    r := Ok(regionData);
  }

  /** The loop body for one row: skip it, throw, or key its value by the code of the unit it names. */
  method MapRow(regions: seq<RegionMapping>, row: Row, regionKey: string, valueKey: string)
    returns (c: Result<Option<(string, int)>, MapError>)
    ensures c == RowContribution(regions, row, regionKey, valueKey)
  {
    var regionName := Get(row, regionKey);
    var value := ParseNumber(Get(row, valueKey));
    if !Truthy(regionName) || value.None? {
      return Ok(None);
    }
    if !regionName.Str? {
      return Err(RegionNotString);
    }
    var region := FindByName(regions, regionName.s);
    if region.Some? {
      return Ok(Some((region.value.code, value.value)));
    }
    return Ok(None);
  }
}
