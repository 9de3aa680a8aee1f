/**
 * The risk (hazard) record: the closed level and type enumerations, the
 * record defaults, the time-window activity test and the level colour table.
 */
module RiskModel {
  import opened Common

  /** `RiskLevel`: exactly four levels. */
  datatype RiskLevel = Low | Medium | High | Critical {
    /** The enum member's string value. */
    function Value(): string
    {
      match this
      case Low => "low"
      case Medium => "medium"
      case High => "high"
      case Critical => "critical"
    }
  }

  /** `RiskType`: exactly ten types. */
  datatype RiskType = Flood | Fire | Earthquake | Storm | Heat | Cold | Technogenic | Epidemic | Radiation | Chemical {
    /** The enum member's string value. */
    function Value(): string
    {
      match this
      case Flood => "flood"
      case Fire => "fire"
      case Earthquake => "earthquake"
      case Storm => "storm"
      case Heat => "heat"
      case Cold => "cold"
      case Technogenic => "technogenic"
      case Epidemic => "epidemic"
      case Radiation => "radiation"
      case Chemical => "chemical"
    }
  }

  /** Every level, in declaration order. */
  const AllLevels: seq<RiskLevel> := [Low, Medium, High, Critical]

  /** Every type, in declaration order. */
  const AllTypes: seq<RiskType> := [Flood, Fire, Earthquake, Storm, Heat, Cold, Technogenic, Epidemic, Radiation, Chemical]

  /**
   * `RiskLevel(value)`: the level with that string value. Python raises
   * `ValueError` for an unknown value; `None` stands for that error.
   */
  function LevelFromValue(v: string): (r: Option<RiskLevel>)
    ensures r.Some? ==> r.value.Value() == v
    ensures r.None? ==> forall l: RiskLevel :: l.Value() != v
  {
    if v == "low" then Some(Low)
    else if v == "medium" then Some(Medium)
    else if v == "high" then Some(High)
    else if v == "critical" then Some(Critical)
    else None
  }

  /**
   * `RiskType(value)`: the type with that string value. Python raises
   * `ValueError` for an unknown value; `None` stands for that error.
   */
  function TypeFromValue(v: string): (r: Option<RiskType>)
    ensures r.Some? ==> r.value.Value() == v
    ensures r.None? ==> forall t: RiskType :: t.Value() != v
  {
    if v == "flood" then Some(Flood)
    else if v == "fire" then Some(Fire)
    else if v == "earthquake" then Some(Earthquake)
    else if v == "storm" then Some(Storm)
    else if v == "heat" then Some(Heat)
    else if v == "cold" then Some(Cold)
    else if v == "technogenic" then Some(Technogenic)
    else if v == "epidemic" then Some(Epidemic)
    else if v == "radiation" then Some(Radiation)
    else if v == "chemical" then Some(Chemical)
    else None
  }

  /** The level enumeration is closed: four distinct levels, each round-tripping through its value. */
  lemma LevelsClosed(l: RiskLevel)
    ensures l in AllLevels && |AllLevels| == 4
    ensures forall i, j :: 0 <= i < j < |AllLevels| ==> AllLevels[i] != AllLevels[j]
    ensures LevelFromValue(l.Value()) == Some(l)
  {
  }

  /** The type enumeration is closed: ten types, each round-tripping through its value. */
  lemma TypesClosed(t: RiskType)
    ensures t in AllTypes && |AllTypes| == 10
    ensures TypeFromValue(t.Value()) == Some(t)
  {
  }

  /** The ten types are listed once each. */
  lemma TypesDistinct()
    ensures forall i, j :: 0 <= i < j < |AllTypes| ==> AllTypes[i] != AllTypes[j]
  {
    forall i, j | 0 <= i < j < |AllTypes|
      ensures AllTypes[i] != AllTypes[j]
    {
      assert AllTypes[i].Value() != AllTypes[j].Value();
    }
  }

  /** `RiskZone`: a circle, with an optional polygon the logic never reads. */
  datatype RiskZone = RiskZone(latitude: real, longitude: real, radiusKm: real, polygon: Option<seq<(real, real)>>)

  /**
   * The risk record. Timestamps are integers (a clock reading); an absent
   * bound is `None` (a `datetime` is always truthy in Python).
   */
  datatype Risk = Risk(
    id: string,
    riskType: RiskType,
    level: RiskLevel,
    title: string,
    description: string,
    zone: RiskZone,
    startTime: Option<int>,
    endTime: Option<int>,
    instructions: seq<string>,
    evacuationRequired: bool,
    source: string,
    createdAt: int,
    updatedAt: int)

  /** The attribution used when none is given. */
  const DefaultSource := "МЧС"

  /** `Risk(id, type, level, title, description, zone)` with every other field at its default; `now` is the clock. */
  function NewRisk(id: string, riskType: RiskType, level: RiskLevel, title: string, description: string,
                   zone: RiskZone, now: int): (r: Risk)
    ensures r.id == id && r.riskType == riskType && r.level == level
    ensures r.title == title && r.description == description && r.zone == zone
    ensures r.startTime.None? && r.endTime.None?
    ensures r.instructions == [] && !r.evacuationRequired && r.source == "МЧС"
    ensures r.createdAt == now && r.updatedAt == now
    ensures forall t :: IsActive(r, t)
  {
    Risk(id, riskType, level, title, description, zone, None, None, [], false, DefaultSource, now, now)
  }

  /**
   * The `is_active` property with the clock made a parameter: active unless
   * it has not started yet or has already ended. Both bounds are inclusive.
   */
  function IsActive(r: Risk, now: int): (b: bool)
    ensures b <==> (r.startTime.None? || r.startTime.value <= now) && (r.endTime.None? || now <= r.endTime.value)
  {
    if r.startTime.Some? && now < r.startTime.value then false
    else if r.endTime.Some? && now > r.endTime.value then false
    else true
  }

  /** The edges of the window: not yet started or already ended is inactive; either bound itself is active. */
  lemma IsActiveWindow(r: Risk, now: int)
    ensures r.startTime.Some? && now < r.startTime.value ==> !IsActive(r, now)
    ensures r.endTime.Some? && now > r.endTime.value ==> !IsActive(r, now)
    ensures r.startTime == Some(now) && (r.endTime.None? || now <= r.endTime.value) ==> IsActive(r, now)
    ensures r.endTime == Some(now) && (r.startTime.None? || r.startTime.value <= now) ==> IsActive(r, now)
    ensures r.startTime.None? && r.endTime.None? ==> IsActive(r, now)
  {
  }

  /** The colour table of `get_level_color`. */
  const LevelColors: map<RiskLevel, string> := map[
    Low := "#4CAF50",
    Medium := "#FFC107",
    High := "#FF9800",
    Critical := "#F44336"
  ]

  /** The colour for a level outside the table. */
  const UnknownLevelColor := "#9E9E9E"

  /** `get_level_color`: the table covers every level, so the grey fallback never shows. */
  function LevelColor(r: Risk): (c: string)
    ensures c != UnknownLevelColor
    ensures c in LevelColors.Values
    ensures r.level in LevelColors && c == LevelColors[r.level]
  {
    assert r.level in LevelColors by {
      assert r.level.Low? || r.level.Medium? || r.level.High? || r.level.Critical?;
    }
    if r.level in LevelColors then LevelColors[r.level] else UnknownLevelColor
  }

  /** The severities are told apart by colour. */
  lemma LevelColorsDistinct(a: Risk, b: Risk)
    requires a.level != b.level
    ensures LevelColor(a) != LevelColor(b)
  {
  }
}
