/**
 * The shelter registry: the stored shelter list and its queries — active,
 * by id, by type, with spare capacity, and the N nearest active shelters
 * ranked by an abstract distance function.
 */
module ShelterRegistry {
  import opened Common
  import opened Sorting
  import opened ShelterModel
  import Location

  /** The three mock shelters the service loads at construction; `now` stamps `last_verified`. */
  function MockShelters(now: int): (r: seq<Shelter>)
    ensures |r| == 3
    ensures forall i :: 0 <= i < |r| ==> r[i].isActive
  {
    [
      NewShelter("shelter_1", "Школа №564, корпус №5", "shelter",
                 ShelterLocation(55.758, 37.620, "ул. Примерная, д. 10", None),
                 ShelterCapacity(200, 45), now)
        .(hasMedical := true, hasFood := true, phone := Some("+7 (495) 123-45-67")),
      NewShelter("shelter_2", "Бункер ГО №12", "bunker",
                 ShelterLocation(55.755, 37.618, "ул. Безопасная, д.  5", Some(-2)),
                 ShelterCapacity(500, 0), now)
        .(hasMedical := true, hasFood := true, hasCommunication := true, phone := Some("+7 (495) 987-65-43")),
      NewShelter("shelter_3", "Пункт эвакуации #3", "evacuation_point",
                 ShelterLocation(55.760, 37.625, "пр. Мира, д. 25", None),
                 ShelterCapacity(150, 20), now)
        .(isAccessible := true, hasMedical := false, hasFood := false, phone := Some("+7 (495) 111-22-33"))
    ]
  }

  /** The first mock shelter has 155 free places and is 22.5 % occupied. */
  lemma MockCapacity(now: int)
    ensures Available(MockShelters(now)[0].capacity) == 155
    ensures OccupancyPercent(MockShelters(now)[0].capacity) == 22.5
  {
  }

  function IsActive(s: Shelter): bool { s.isActive }

  /** `get_active_shelters`: the active shelters, in stored order. */
  function ActiveShelters(shelters: seq<Shelter>): (r: seq<Shelter>)
    ensures forall s :: s in r <==> s in shelters && s.isActive
    ensures forall s :: multiset(r)[s] == if s.isActive then multiset(shelters)[s] else 0
    ensures IsSubsequence(r, shelters)
  {
    FilterIsSubsequence(IsActive, shelters);
    FilterMultiset(IsActive, shelters);
    Filter(IsActive, shelters)
  }

  /** When every stored shelter is active, the active list is the stored list. */
  lemma AllActive(shelters: seq<Shelter>)
    requires forall i :: 0 <= i < |shelters| ==> shelters[i].isActive
    ensures ActiveShelters(shelters) == shelters
  {
    FilterAll(IsActive, shelters);
  }

  function HasId(id: string): Shelter -> bool { (s: Shelter) => s.id == id }

  /** `get_shelter_by_id`: the first stored shelter with that id, or `None`. */
  function ShelterById(shelters: seq<Shelter>, id: string): (r: Option<Shelter>)
    ensures r.None? <==> forall i :: 0 <= i < |shelters| ==> shelters[i].id != id
    ensures r.Some? ==> exists i: nat :: IsFirstMatch(HasId(id), shelters, i) && r.value == shelters[i]
  {
    match FirstIndex(HasId(id), shelters)
    case None => None
    case Some(i) => Some(shelters[i])
  }

  function HasType(shelterType: string): Shelter -> bool { (s: Shelter) => s.shelterType == shelterType }

  /** `get_shelters_by_type`: exactly the shelters of that type, in stored order. */
  function SheltersByType(shelters: seq<Shelter>, shelterType: string): (r: seq<Shelter>)
    ensures forall s :: s in r <==> s in shelters && s.shelterType == shelterType
    ensures forall s :: multiset(r)[s] == if s.shelterType == shelterType then multiset(shelters)[s] else 0
    ensures IsSubsequence(r, shelters)
  {
    FilterIsSubsequence(HasType(shelterType), shelters);
    FilterMultiset(HasType(shelterType), shelters);
    Filter(HasType(shelterType), shelters)
  }

  /** Default `min_capacity` of `get_shelters_with_capacity`. */
  const DefaultMinCapacity := 1

  function HasRoom(minCapacity: int): Shelter -> bool { (s: Shelter) => Available(s.capacity) >= minCapacity }

  /** `get_shelters_with_capacity`: the active shelters with at least `minCapacity` free places, in order. */
  function SheltersWithCapacity(shelters: seq<Shelter>, minCapacity: int): (r: seq<Shelter>)
    ensures forall s :: s in r <==> s in shelters && s.isActive && Available(s.capacity) >= minCapacity
    ensures forall s :: multiset(r)[s] == if s.isActive && Available(s.capacity) >= minCapacity then multiset(shelters)[s] else 0
    ensures IsSubsequence(r, ActiveShelters(shelters))
  {
    FilterIsSubsequence(HasRoom(minCapacity), ActiveShelters(shelters));
    FilterMultiset(HasRoom(minCapacity), ActiveShelters(shelters));
    Filter(HasRoom(minCapacity), ActiveShelters(shelters))
  }

  /** The two-step query is a single filter over the stored list: active and with enough room. */
  lemma {:induction false} SheltersWithCapacityOnePass(shelters: seq<Shelter>, minCapacity: int)
    ensures SheltersWithCapacity(shelters, minCapacity) == Filter(Both(IsActive, HasRoom(minCapacity)), shelters)
  {
    FilterFilter(IsActive, HasRoom(minCapacity), shelters);
  }

  /** Free places of the three fixture shelters. */
  lemma MockAvailable(now: int)
    ensures Available(MockShelters(now)[0].capacity) == 155
    ensures Available(MockShelters(now)[1].capacity) == 500
    ensures Available(MockShelters(now)[2].capacity) == 130
  {
  }

  /** When every stored shelter is active and has room, the capacity query returns the stored list. */
  lemma AllHaveRoom(shelters: seq<Shelter>, minCapacity: int)
    requires forall i :: 0 <= i < |shelters| ==> shelters[i].isActive && Available(shelters[i].capacity) >= minCapacity
    ensures SheltersWithCapacity(shelters, minCapacity) == shelters
  {
    AllActive(shelters);
    assert forall i :: 0 <= i < |shelters| ==> HasRoom(minCapacity)(shelters[i]);
    FilterAll(HasRoom(minCapacity), shelters);
  }

  /** With the default minimum of one place, every fixture shelter has room. */
  lemma MockSheltersAllHaveRoom(now: int)
    ensures SheltersWithCapacity(MockShelters(now), DefaultMinCapacity) == MockShelters(now)
  {
    var ms := MockShelters(now);
    MockAvailable(now);
    assert forall i :: 0 <= i < |ms| ==> Available(ms[i].capacity) >= DefaultMinCapacity;
    AllHaveRoom(ms, DefaultMinCapacity);
  }

  /** A shelter paired with its distance from the query point. */
  type Ranked = (Shelter, real)

  function RankKey(e: Ranked): real { e.1 }

  /** Distance from the query point to a shelter. */
  function ShelterDistance(distance: Location.DistanceFn, lat: real, lon: real, s: Shelter): real
  {
    distance(lat, lon, s.location.latitude, s.location.longitude)
  }

  /** Pairs every shelter with its distance, in order. */
  function WithDistances(distance: Location.DistanceFn, lat: real, lon: real, shelters: seq<Shelter>): (r: seq<Ranked>)
    ensures |r| == |shelters|
    ensures forall i :: 0 <= i < |r| ==> r[i] == (shelters[i], ShelterDistance(distance, lat, lon, shelters[i]))
  {
    seq(|shelters|, i requires 0 <= i < |shelters| => (shelters[i], ShelterDistance(distance, lat, lon, shelters[i])))
  }

  /** The length of Python's `xs[:limit]` for a list of length `n`; a negative limit counts from the end. */
  function SliceLength(n: nat, limit: int): (r: nat)
    ensures r <= n
    ensures limit >= 0 ==> r == if limit < n then limit else n
    ensures limit < 0 ==> r == if n + limit > 0 then n + limit else 0
  {
    if limit >= 0 then (if limit < n then limit else n)
    else if n + limit > 0 then n + limit else 0
  }

  /** Default `limit` of `get_nearest_shelters`. */
  const DefaultLimit := 5

  /** The active shelters with their distances, stably sorted nearest first. */
  function RankedActive(distance: Location.DistanceFn, lat: real, lon: real, shelters: seq<Shelter>): seq<Ranked>
  {
    Sort(RankKey, WithDistances(distance, lat, lon, ActiveShelters(shelters)))
  }

  /** Every ranked entry is an active stored shelter paired with its own distance. */
  lemma RankedEntries(distance: Location.DistanceFn, lat: real, lon: real, shelters: seq<Shelter>)
    ensures var ranked := RankedActive(distance, lat, lon, shelters);
            forall i :: 0 <= i < |ranked| ==>
              ranked[i].0 in shelters && ranked[i].0.isActive
              && ranked[i].1 == ShelterDistance(distance, lat, lon, ranked[i].0)
  {
    var pairs := WithDistances(distance, lat, lon, ActiveShelters(shelters));
    var ranked := Sort(RankKey, pairs);
    forall i | 0 <= i < |ranked|
      ensures ranked[i].0 in shelters && ranked[i].0.isActive
      ensures ranked[i].1 == ShelterDistance(distance, lat, lon, ranked[i].0)
    {
      assert ranked[i] in multiset(pairs);
      var j :| 0 <= j < |pairs| && pairs[j] == ranked[i];
      assert ActiveShelters(shelters)[j] in ActiveShelters(shelters);
    }
  }

  /**
   * `get_nearest_shelters`: a prefix of the stable ascending ranking of the
   * active shelters, of Python slice length; every entry is an active
   * shelter with its own distance, and the entries are nearest first.
   */
  function NearestShelters(distance: Location.DistanceFn, shelters: seq<Shelter>, lat: real, lon: real, limit: int)
    : (r: seq<Ranked>)
    ensures |r| == SliceLength(|ActiveShelters(shelters)|, limit)
    ensures r <= RankedActive(distance, lat, lon, shelters)
    ensures forall i :: 0 <= i < |r| ==> r[i].0 in shelters && r[i].0.isActive
    ensures forall i :: 0 <= i < |r| ==> r[i].1 == ShelterDistance(distance, lat, lon, r[i].0)
    ensures SortedBy(RankKey, r)
  {
    var ranked := RankedActive(distance, lat, lon, shelters);
    RankedEntries(distance, lat, lon, shelters);
    ranked[..SliceLength(|ranked|, limit)]
  }

  /** No active shelter left out of the result is nearer than one that was kept. */
  lemma NearestAreNearest(distance: Location.DistanceFn, shelters: seq<Shelter>, lat: real, lon: real, limit: int)
    ensures var ranked := RankedActive(distance, lat, lon, shelters);
            var r := NearestShelters(distance, shelters, lat, lon, limit);
            forall i, j :: 0 <= i < |r| <= j < |ranked| ==> r[i].1 <= ranked[j].1
  {
    var ranked := RankedActive(distance, lat, lon, shelters);
    var r := NearestShelters(distance, shelters, lat, lon, limit);
    SortedPrefixBeforeRest(RankKey, ranked, |r|);
  }

  /**
   * Ties keep the active-list order: the shelters at any one distance
   * appear in the ranking exactly as they appear among the active shelters.
   */
  lemma NearestTiesKeepOrder(distance: Location.DistanceFn, shelters: seq<Shelter>, lat: real, lon: real, d: real)
    ensures Filter(KeyIs(RankKey, d), RankedActive(distance, lat, lon, shelters))
         == Filter(KeyIs(RankKey, d), WithDistances(distance, lat, lon, ActiveShelters(shelters)))
  {
    SortStable(RankKey, WithDistances(distance, lat, lon, ActiveShelters(shelters)), d);
  }

  /** With the mock data and the default limit, all three shelters come back, whatever the distances. */
  lemma MockNearestReturnsAll(distance: Location.DistanceFn, now: int, lat: real, lon: real)
    ensures |NearestShelters(distance, MockShelters(now), lat, lon, DefaultLimit)| == 3
  {
    AllActive(MockShelters(now));
  }
}
