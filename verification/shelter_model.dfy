/**
 * The shelter record: its location, its capacity counters with the derived
 * `available` and `occupancy_percent` values, the dataclass defaults, the
 * type icon table and the dictionary projection.
 */
module ShelterModel {
  import opened Common

  /** Where a shelter is; `floor` is optional (negative for basements). */
  datatype ShelterLocation = ShelterLocation(latitude: real, longitude: real, address: string, floor: Option<int>)

  /**
   * Capacity counters. Python `int`s, unbounded and unconstrained: nothing
   * in the class keeps `current` within `[0, total]`.
   */
  datatype ShelterCapacity = ShelterCapacity(total: int, current: int)

  /** `ShelterCapacity(total)`: `current` defaults to 0. */
  function NewCapacity(total: int): (c: ShelterCapacity)
    ensures c.total == total && c.current == 0
    ensures Available(c) == total && OccupancyPercent(c) == 0.0
  {
    ShelterCapacity(total, 0)
  }

  /** The `available` property: the places still free, so that `current + available == total`. */
  function Available(c: ShelterCapacity): (r: int)
    ensures c.current + r == c.total
  {
    c.total - c.current
  }

  /**
   * The `occupancy_percent` property: 0 for a zero total (no division),
   * otherwise the percentage `p` with `p * total == current * 100`.
   */
  function OccupancyPercent(c: ShelterCapacity): (r: real)
    ensures c.total == 0 ==> r == 0.0
    ensures c.total != 0 ==> r * c.total as real == c.current as real * 100.0
  {
    if c.total == 0 then 0.0
    else (c.current as real / c.total as real) * 100.0
  }

  /**
   * Only when the counters are in range (which the class never enforces)
   * are `available` and the percentage bounded.
   */
  lemma CapacityBounds(c: ShelterCapacity)
    requires 0 <= c.current <= c.total
    ensures 0 <= Available(c) <= c.total
    ensures 0.0 <= OccupancyPercent(c) <= 100.0
  {
    if c.total != 0 {
      var q := c.current as real / c.total as real;
      assert q * c.total as real == c.current as real;
      assert 0.0 <= q <= 1.0;
    }
  }

  /** Out-of-range counters are accepted and give out-of-range derived values. */
  lemma OverfullCapacity()
    ensures Available(ShelterCapacity(10, 15)) == -5
    ensures OccupancyPercent(ShelterCapacity(10, 15)) == 150.0
  {
  }

  /** The shelter record. Timestamps are integers supplied by the caller's clock. */
  datatype Shelter = Shelter(
    id: string,
    name: string,
    shelterType: string,
    location: ShelterLocation,
    capacity: ShelterCapacity,
    isAccessible: bool,
    hasMedical: bool,
    hasFood: bool,
    hasWater: bool,
    hasPower: bool,
    hasCommunication: bool,
    phone: Option<string>,
    responsiblePerson: Option<string>,
    workingHours: Option<string>,
    isActive: bool,
    lastVerified: int,
    notes: Option<string>,
    images: seq<string>)

  /**
   * `Shelter(id, name, shelter_type, location, capacity)` with every other
   * field at its dataclass default; `last_verified` is the clock reading `now`.
   */
  function NewShelter(id: string, name: string, shelterType: string, location: ShelterLocation,
                      capacity: ShelterCapacity, now: int): (s: Shelter)
    ensures s.id == id && s.name == name && s.shelterType == shelterType
    ensures s.location == location && s.capacity == capacity
    ensures s.isActive && s.isAccessible && s.hasWater && s.hasPower && s.hasCommunication
    ensures !s.hasMedical && !s.hasFood
    ensures s.phone.None? && s.responsiblePerson.None? && s.workingHours.None? && s.notes.None?
    ensures s.lastVerified == now && s.images == []
  {
    Shelter(id, name, shelterType, location, capacity,
            true, false, false, true, true, true,
            None, None, None,
            true, now, None, [])
  }

  /** The five known shelter types. */
  const ShelterTypes: set<string> := {"bunker", "shelter", "evacuation_point", "temporary_housing", "medical"}

  /** The icon table of `get_type_icon`. */
  const TypeIcons: map<string, string> := map[
    "bunker" := "🏛️",
    "shelter" := "🏠",
    "evacuation_point" := "🚩",
    "temporary_housing" := "🏕️",
    "medical" := "🏥"
  ]

  /** The icon for a type string outside the table. */
  const UnknownTypeIcon := "📍"

  /** `get_type_icon`: the table entry, or the pin for any other string. */
  function TypeIcon(s: Shelter): (r: string)
    ensures r == UnknownTypeIcon <==> s.shelterType !in ShelterTypes
    ensures s.shelterType in ShelterTypes ==> s.shelterType in TypeIcons && r == TypeIcons[s.shelterType]
  {
    if s.shelterType in TypeIcons then TypeIcons[s.shelterType] else UnknownTypeIcon
  }

  /** Different known types get different icons. */
  lemma TypeIconsDistinct(a: Shelter, b: Shelter)
    requires a.shelterType in ShelterTypes && b.shelterType in ShelterTypes
    requires a.shelterType != b.shelterType
    ensures TypeIcon(a) != TypeIcon(b)
  {
  }

  /** The dictionary `to_dict` returns, as a record. */
  datatype ShelterSummary = ShelterSummary(
    id: string,
    name: string,
    shelterType: string,
    address: string,
    capacityAvailable: int,
    isActive: bool)

  /** `to_dict`: identity, type, address and status copied; free places from the capacity. */
  function ToDict(s: Shelter): (d: ShelterSummary)
    ensures d.id == s.id && d.name == s.name && d.shelterType == s.shelterType
    ensures d.address == s.location.address && d.isActive == s.isActive
    ensures d.capacityAvailable + s.capacity.current == s.capacity.total
  {
    ShelterSummary(s.id, s.name, s.shelterType, s.location.address, Available(s.capacity), s.isActive)
  }
}
