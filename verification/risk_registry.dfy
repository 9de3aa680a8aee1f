/**
 * The risk service: the mock risk list it serves, its queries and its
 * statistics, and the type name and icon tables. Two behaviours of the
 * service are modelled exactly as they are: `get_active_risks` returns the
 * mock list without consulting `is_active` or the coordinates, and
 * `get_risks_for_location` ignores the point and the radius.
 */
module RiskRegistry {
  import opened Common
  import opened RiskModel

  /** The service state: a cache from id to risk, which no operation ever fills. */
  datatype RiskService = RiskService(cache: map<string, Risk>)

  /** A freshly constructed service: empty cache. */
  const NewRiskService := RiskService(map[])

  /** The two mock risks; each construction stamps `created_at`/`updated_at` with the clock `now`. */
  function MockRisks(now: int): (r: seq<Risk>)
    ensures |r| == 2
    ensures forall i :: 0 <= i < |r| ==> r[i].startTime.None? && r[i].endTime.None?
  {
    [
      NewRisk("risk_1", Flood, Medium, "Паводковая ситуация",
              "Возможен подъём уровня воды в реках региона",
              RiskZone(55.7558, 37.6173, 25.0, None), now)
        .(instructions := [
            "Подготовьте тревожный рюкзак",
            "Переместите ценные вещи на верхние этажи",
            "Следите за сообщениями МЧС"
          ],
          source := "Росгидромет"),
      NewRisk("risk_2", Heat, Low, "Аномальная жара",
              "Ожидается повышение температуры до +35°C",
              RiskZone(55.7558, 37.6173, 100.0, None), now)
        .(instructions := [
            "Избегайте длительного пребывания на солнце",
            "Пейте больше воды",
            "Носите головной убор"
          ],
          source := "Росгидромет")
    ]
  }

  /**
   * `get_active_risks(lat, lon)`: the mock list, whatever the coordinates
   * and without filtering on `is_active`.
   */
  function ActiveRisks(svc: RiskService, lat: Option<real>, lon: Option<real>, now: int): (r: seq<Risk>)
    ensures |r| == |MockRisks(now)|
    ensures forall i :: 0 <= i < |r| ==> r[i] == MockRisks(now)[i]
    ensures forall i, t :: 0 <= i < |r| ==> IsActive(r[i], t)
  {
    MockRisks(now)
  }

  /** The coordinates and the service state have no influence on the "active" list. */
  lemma ActiveRisksIgnoreArguments(svc1: RiskService, svc2: RiskService,
                                   lat1: Option<real>, lon1: Option<real>,
                                   lat2: Option<real>, lon2: Option<real>, now: int)
    ensures ActiveRisks(svc1, lat1, lon1, now) == ActiveRisks(svc2, lat2, lon2, now)
  {
  }

  /** Default `radius_km` of `get_risks_for_location`. */
  const DefaultRadiusKm := 50.0

  /** `get_risks_for_location`: the same list as `get_active_risks()`; point and radius are unused. */
  function RisksForLocation(svc: RiskService, lat: real, lon: real, radiusKm: real, now: int): (r: seq<Risk>)
    ensures r == ActiveRisks(svc, None, None, now)
  {
    ActiveRisks(svc, None, None, now)
  }

  /** Any two location queries at the same clock reading give the same list. */
  lemma RisksForLocationIgnoresRadius(svc: RiskService, lat1: real, lon1: real, radius1: real,
                                      lat2: real, lon2: real, radius2: real, now: int)
    ensures RisksForLocation(svc, lat1, lon1, radius1, now) == RisksForLocation(svc, lat2, lon2, radius2, now)
    ensures RisksForLocation(svc, lat1, lon1, radius1, now) == RisksForLocation(svc, lat1, lon1, DefaultRadiusKm, now)
  {
  }

  /** `get_risk_by_id`: the cached risk, or `None` when the id is not cached. */
  function RiskById(svc: RiskService, id: string): (r: Option<Risk>)
    ensures r.Some? <==> id in svc.cache
    ensures r.Some? ==> r.value == svc.cache[id]
  {
    if id in svc.cache then Some(svc.cache[id]) else None
  }

  /** The cache of a new service is never filled, so every lookup misses. */
  lemma RiskByIdAlwaysMisses(id: string)
    ensures RiskById(NewRiskService, id) == None
  {
  }

  /** The `get_risk_statistics` dictionary: `by_level` and `by_type` are keyed by the enum members. */
  datatype RiskStatistics = RiskStatistics(total: nat, byLevel: map<RiskLevel, nat>, byType: map<RiskType, nat>)

  function LevelIs(l: RiskLevel): Risk -> bool { (r: Risk) => r.level == l }

  function TypeIs(t: RiskType): Risk -> bool { (r: Risk) => r.riskType == t }

  /** How many of `risks` have level `l`. */
  function CountLevel(risks: seq<Risk>, l: RiskLevel): nat { Count(LevelIs(l), risks) }

  /** How many of `risks` have type `t`. */
  function CountType(risks: seq<Risk>, t: RiskType): nat { Count(TypeIs(t), risks) }

  /** The types that occur in `risks`. */
  function TypesOf(risks: seq<Risk>): set<RiskType>
  {
    set i | 0 <= i < |risks| :: risks[i].riskType
  }

  /** Python's `d.get(t, 0)`. */
  function GetOrZero(m: map<RiskType, nat>, t: RiskType): nat
  {
    if t in m then m[t] else 0
  }

  /** The sum of the counts of `m` over the types listed in `ts`. */
  function SumOver(ts: seq<RiskType>, m: map<RiskType, nat>): nat
    decreases |ts|
  {
    if |ts| == 0 then 0 else GetOrZero(m, ts[0]) + SumOver(ts[1..], m)
  }

  /** The sum of all the counts of `m`. */
  function TypeTotal(m: map<RiskType, nat>): nat { SumOver(AllTypes, m) }

  /** The statistics before any risk is seen: every level bucket present at zero, no types. */
  const EmptyStatistics := RiskStatistics(0, map[Low := 0, Medium := 0, High := 0, Critical := 0], map[])

  /** One iteration of the statistics loop. */
  function Tally(s: RiskStatistics, r: Risk): RiskStatistics
    requires r.level in s.byLevel
  {
    RiskStatistics(
      s.total + 1,
      s.byLevel[r.level := s.byLevel[r.level] + 1],
      Bump(s.byType, r.riskType))
  }

  /** Raising one listed count by one raises the sum over a duplicate-free list by one; an unlisted one leaves it. */
  lemma {:induction false} SumOverBump(ts: seq<RiskType>, m: map<RiskType, nat>, t: RiskType)
    requires forall i, j :: 0 <= i < j < |ts| ==> ts[i] != ts[j]
    ensures SumOver(ts, m[t := GetOrZero(m, t) + 1]) == SumOver(ts, m) + (if t in ts then 1 else 0)
    decreases |ts|
  {
    if |ts| > 0 {
      SumOverBump(ts[1..], m, t);
      if ts[0] == t {
        assert t !in ts[1..];
      }
    }
  }

  /** Every type is listed in `AllTypes`, once. */
  lemma AllTypesComplete(t: RiskType)
    ensures t in AllTypes
    ensures forall i, j :: 0 <= i < j < |AllTypes| ==> AllTypes[i] != AllTypes[j]
  {
    TypesClosed(t);
    TypesDistinct();
  }

  /**
   * `s` is the statistics of `risks`: `total` is the length; `by_level` has
   * all four buckets, each the number of risks at that level, summing to
   * `total`; `by_type` has exactly the types that occur, each with the
   * number of risks of that type (so at least one), summing to `total`.
   */
  ghost predicate Describes(s: RiskStatistics, risks: seq<Risk>)
  {
    && s.total == |risks|
    && LevelsDescribe(s.byLevel, s.total, risks)
    && TypesDescribe(s.byType, s.total, risks)
  }

  /** The level half of `Describes`. */
  ghost predicate LevelsDescribe(byLevel: map<RiskLevel, nat>, total: nat, risks: seq<Risk>)
  {
    && byLevel.Keys == {Low, Medium, High, Critical}
    && (forall l :: l in byLevel ==> byLevel[l] == CountLevel(risks, l))
    && byLevel[Low] + byLevel[Medium] + byLevel[High] + byLevel[Critical] == total
  }

  /** The type half of `Describes`. */
  ghost predicate TypesDescribe(byType: map<RiskType, nat>, total: nat, risks: seq<Risk>)
  {
    && byType.Keys == TypesOf(risks)
    && (forall t :: t in byType ==> byType[t] == CountType(risks, t) && byType[t] >= 1)
    && TypeTotal(byType) == total
  }

  /** `get_risk_statistics` over a list, counting in list order. */
  function Statistics(risks: seq<Risk>): (r: RiskStatistics)
    ensures Describes(r, risks)
    decreases |risks|
  {
    if |risks| == 0 then
      EmptyStatisticsFit(risks);
      EmptyStatistics
    else
      var n := |risks| - 1;
      var prefix := risks[..n];
      var last := risks[n];
      assert risks == prefix + [last];
      var s := Statistics(prefix);
      StatisticsStep(prefix, last, s);
      Tally(s, last)
  }

  /** Tallying one more risk keeps the statistics describing the list. */
  lemma StatisticsStep(prefix: seq<Risk>, last: Risk, s: RiskStatistics)
    requires Describes(s, prefix)
    ensures last.level in s.byLevel
    ensures Describes(Tally(s, last), prefix + [last])
  {
    LevelStep(prefix, last, s.byLevel, s.total);
    TypeStep(prefix, last, s.byType, s.total);
  }

  /** The type counts after one more risk. */
  lemma TypeStep(prefix: seq<Risk>, last: Risk, byType: map<RiskType, nat>, total: nat)
    requires TypesDescribe(byType, total, prefix)
    ensures TypesDescribe(Bump(byType, last.riskType), total + 1, prefix + [last])
  {
    TypeKeysStep(prefix, last, byType);
    TypeCountStep(prefix, last, byType);
    TypeTotalStep(byType, last.riskType);
  }

  /** The empty tally describes the empty list. */
  lemma EmptyStatisticsFit(risks: seq<Risk>)
    requires |risks| == 0
    ensures TypesOf(risks) == {}
    ensures forall l :: CountLevel(risks, l) == 0
    ensures TypeTotal(map[]) == 0
  {
    SumOverEmpty(AllTypes);
  }

  /** With no counts the sum is zero. */
  lemma {:induction false} SumOverEmpty(ts: seq<RiskType>)
    ensures SumOver(ts, map[]) == 0
    decreases |ts|
  {
    if |ts| > 0 {
      SumOverEmpty(ts[1..]);
    }
  }

  /** A type that does not occur has count zero. */
  lemma {:induction false} CountTypeAbsent(risks: seq<Risk>, t: RiskType)
    requires t !in TypesOf(risks)
    ensures CountType(risks, t) == 0
    decreases |risks|
  {
    if |risks| > 0 {
      assert risks[0].riskType in TypesOf(risks);
      assert TypesOf(risks[1..]) <= TypesOf(risks) by {
        forall u | u in TypesOf(risks[1..])
          ensures u in TypesOf(risks)
        {
          var i :| 0 <= i < |risks[1..]| && risks[1..][i].riskType == u;
          assert risks[i + 1].riskType == u;
        }
      }
      CountTypeAbsent(risks[1..], t);
    }
  }

  /** The types of a list extended by one risk. */
  lemma TypesOfSnoc(prefix: seq<Risk>, last: Risk)
    ensures TypesOf(prefix + [last]) == TypesOf(prefix) + {last.riskType}
  {
    var risks := prefix + [last];
    forall t | t in TypesOf(risks)
      ensures t in TypesOf(prefix) + {last.riskType}
    {
      var i :| 0 <= i < |risks| && risks[i].riskType == t;
      if i < |prefix| {
        assert risks[i] == prefix[i];
      }
    }
    forall t | t in TypesOf(prefix)
      ensures t in TypesOf(risks)
    {
      var i :| 0 <= i < |prefix| && prefix[i].riskType == t;
      assert risks[i] == prefix[i];
    }
    assert risks[|prefix|] == last;
  }

  /** The level buckets after one more risk. */
  lemma LevelStep(prefix: seq<Risk>, last: Risk, byLevel: map<RiskLevel, nat>, total: nat)
    requires LevelsDescribe(byLevel, total, prefix)
    ensures last.level in byLevel
    ensures LevelsDescribe(byLevel[last.level := byLevel[last.level] + 1], total + 1, prefix + [last])
  {
    LevelSumStep(byLevel, last.level);
    var r := byLevel[last.level := byLevel[last.level] + 1];
    assert forall l :: l in r ==> r[l] == CountLevel(prefix + [last], l) by {
      LevelCountStep(prefix, last, byLevel);
    }
  }

  /** Each level bucket after one more risk. */
  lemma LevelCountStep(prefix: seq<Risk>, last: Risk, byLevel: map<RiskLevel, nat>)
    requires last.level in byLevel
    requires forall l :: l in byLevel ==> byLevel[l] == CountLevel(prefix, l)
    ensures var r := byLevel[last.level := byLevel[last.level] + 1];
            forall l :: l in r ==> r[l] == CountLevel(prefix + [last], l)
  {
    var r := byLevel[last.level := byLevel[last.level] + 1];
    forall l | l in r
      ensures r[l] == CountLevel(prefix + [last], l)
    {
      FilterSnoc(LevelIs(l), prefix, last);
    }
  }

  /** Raising one of the four buckets raises their sum by one. */
  lemma LevelSumStep(byLevel: map<RiskLevel, nat>, l: RiskLevel)
    requires byLevel.Keys == {Low, Medium, High, Critical}
    ensures l in byLevel
    ensures var r := byLevel[l := byLevel[l] + 1];
            && r.Keys == {Low, Medium, High, Critical}
            && r[Low] + r[Medium] + r[High] + r[Critical] == byLevel[Low] + byLevel[Medium] + byLevel[High] + byLevel[Critical] + 1
  {
    assert l in byLevel by {
      assert l.Low? || l.Medium? || l.High? || l.Critical?;
    }
  }

  /** Python's `by_type[t] = by_type.get(t, 0) + 1`. */
  function Bump(m: map<RiskType, nat>, t: RiskType): map<RiskType, nat>
  {
    m[t := GetOrZero(m, t) + 1]
  }

  /** One more risk adds one to the sum of the type counts. */
  lemma TypeTotalStep(byType: map<RiskType, nat>, t: RiskType)
    ensures TypeTotal(Bump(byType, t)) == TypeTotal(byType) + 1
  {
    AllTypesComplete(t);
    SumOverBump(AllTypes, byType, t);
  }

  /** The type keys after one more risk. */
  lemma TypeKeysStep(prefix: seq<Risk>, last: Risk, byType: map<RiskType, nat>)
    requires byType.Keys == TypesOf(prefix)
    ensures Bump(byType, last.riskType).Keys == TypesOf(prefix + [last])
  {
    TypesOfSnoc(prefix, last);
  }

  /** The per-type counts after one more risk. */
  lemma TypeCountStep(prefix: seq<Risk>, last: Risk, byType: map<RiskType, nat>)
    requires byType.Keys == TypesOf(prefix)
    requires forall t :: t in byType ==> byType[t] == CountType(prefix, t) && byType[t] >= 1
    ensures forall t :: t in Bump(byType, last.riskType) ==>
              Bump(byType, last.riskType)[t] == CountType(prefix + [last], t) && Bump(byType, last.riskType)[t] >= 1
  {
    var r := Bump(byType, last.riskType);
    forall t | t in r
      ensures r[t] == CountType(prefix + [last], t) && r[t] >= 1
    {
      FilterSnoc(TypeIs(t), prefix, last);
      if t == last.riskType && t !in byType {
        CountTypeAbsent(prefix, t);
      }
    }
  }

  /** `get_risk_statistics()`: the statistics of the `get_active_risks()` list. */
  function RiskStatisticsOf(svc: RiskService, now: int): (r: RiskStatistics)
    ensures r.total == |ActiveRisks(svc, None, None, now)|
  {
    Statistics(ActiveRisks(svc, None, None, now))
  }

  /** A medium flood followed by a low heat wave, as in the mock list. */
  ghost predicate FloodThenHeat(risks: seq<Risk>)
  {
    && |risks| == 2
    && risks[0].riskType == Flood && risks[0].level == Medium
    && risks[1].riskType == Heat && risks[1].level == Low
  }

  /** How such a list splits by level and by type. */
  lemma FloodThenHeatCounts(risks: seq<Risk>)
    requires FloodThenHeat(risks)
    ensures forall l :: CountLevel(risks, l) == (if l == Low || l == Medium then 1 else 0)
    ensures forall t :: CountType(risks, t) == (if t == Flood || t == Heat then 1 else 0)
    ensures TypesOf(risks) == {Flood, Heat}
  {
    assert risks == [risks[0]] + [risks[1]];
    forall l
      ensures CountLevel(risks, l) == (if l == Low || l == Medium then 1 else 0)
    {
      FilterSnoc(LevelIs(l), [risks[0]], risks[1]);
      assert [risks[0]][1..] == [];
    }
    forall t
      ensures CountType(risks, t) == (if t == Flood || t == Heat then 1 else 0)
    {
      FilterSnoc(TypeIs(t), [risks[0]], risks[1]);
      assert [risks[0]][1..] == [];
    }
  }

  /** A level map with exactly the mock list's counts. */
  lemma MockLevelMap(m: map<RiskLevel, nat>)
    requires m.Keys == {Low, Medium, High, Critical}
    requires m[Low] == 1 && m[Medium] == 1 && m[High] == 0 && m[Critical] == 0
    ensures m == map[Low := 1, Medium := 1, High := 0, Critical := 0]
  {
  }

  /** A type map with exactly the mock list's counts. */
  lemma MockTypeMap(m: map<RiskType, nat>)
    requires m.Keys == {Flood, Heat}
    requires m[Flood] == 1 && m[Heat] == 1
    ensures m == map[Flood := 1, Heat := 1]
  {
  }

  /** The statistics of such a list. */
  lemma FloodThenHeatStatistics(risks: seq<Risk>)
    requires FloodThenHeat(risks)
    ensures Statistics(risks)
         == RiskStatistics(2, map[Low := 1, Medium := 1, High := 0, Critical := 0], map[Flood := 1, Heat := 1])
  {
    var r := Statistics(risks);
    FloodThenHeatCounts(risks);
    assert r.byLevel[Low] == 1 && r.byLevel[Medium] == 1 && r.byLevel[High] == 0 && r.byLevel[Critical] == 0;
    MockLevelMap(r.byLevel);
    assert r.byType[Flood] == 1 && r.byType[Heat] == 1;
    MockTypeMap(r.byType);
  }

  /** The mock statistics: two risks, one low and one medium, one flood and one heat. */
  lemma MockStatistics(svc: RiskService, now: int)
    ensures RiskStatisticsOf(svc, now)
         == RiskStatistics(2, map[Low := 1, Medium := 1, High := 0, Critical := 0], map[Flood := 1, Heat := 1])
  {
    FloodThenHeatStatistics(MockRisks(now));
  }

  /** The name table of `get_risk_type_name`. */
  const TypeNames: map<RiskType, string> := map[
    Flood := "Паводок",
    Fire := "Пожар",
    Earthquake := "Землетрясение",
    Storm := "Шторм",
    Heat := "Аномальная жара",
    Cold := "Аномальный холод",
    Technogenic := "Техногенная авария",
    Epidemic := "Эпидемия",
    Radiation := "Радиационная угроза",
    Chemical := "Химическая угроза"
  ]

  /** The name for a type outside the table. */
  const UnknownTypeName := "Неизвестно"

  /** `get_risk_type_name`: the table covers every type, so "unknown" is never the answer. */
  function RiskTypeName(t: RiskType): (r: string)
    ensures r != UnknownTypeName
    ensures r in TypeNames.Values
    ensures t in TypeNames && r == TypeNames[t]
  {
    AllTypesComplete(t);
    if t in TypeNames then TypeNames[t] else UnknownTypeName
  }

  /** Distinct types have distinct names. */
  lemma RiskTypeNamesDistinct(a: RiskType, b: RiskType)
    requires a != b
    ensures RiskTypeName(a) != RiskTypeName(b)
  {
  }

  /** The icon table of `get_risk_icon`. */
  const TypeIcons: map<RiskType, string> := map[
    Flood := "🌊",
    Fire := "🔥",
    Earthquake := "🌋",
    Storm := "🌪️",
    Heat := "☀️",
    Cold := "❄️",
    Technogenic := "⚠️",
    Epidemic := "🦠",
    Radiation := "☢️",
    Chemical := "☣️"
  ]

  /** The icon for a type outside the table. */
  const UnknownTypeIcon := "⚠️"

  /**
   * `get_risk_icon`: the table entry for every type. The warning sign is
   * both the fallback and the technogenic icon, so it is the only icon two
   * outcomes share; every other type's icon differs from it.
   */
  function RiskIcon(t: RiskType): (r: string)
    ensures r in TypeIcons.Values
    ensures r == UnknownTypeIcon <==> t == Technogenic
    ensures t in TypeIcons && r == TypeIcons[t]
  {
    AllTypesComplete(t);
    if t in TypeIcons then TypeIcons[t] else UnknownTypeIcon
  }
}
