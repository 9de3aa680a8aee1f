/**
 * The location service: the current-versus-default location state, compass
 * sector naming from a bearing, and the nearest-point scan. The haversine
 * distance is not computed here; every operation that needs it receives it
 * as an uninterpreted function with the signature of `calculate_distance`.
 */
module Location {
  import opened Common

  /** `calculate_distance(lat1, lon1, lat2, lon2)` in kilometres. */
  type DistanceFn = (real, real, real, real) -> real

  /** A location; the optional fields are Python's `Optional[...] = None`. */
  datatype Location = Location(
    latitude: real,
    longitude: real,
    accuracy: Option<real>,
    address: Option<string>,
    city: Option<string>,
    region: Option<string>)

  /** The fallback location: the centre of Moscow. */
  const DefaultLocation := Location(55.7558, 37.6173, None, None, Some("Москва"), Some("Московская область"))

  /**
   * The service state: the location set by the user, if any. A `Location`
   * object is always truthy in Python, so "set" is exactly "present".
   */
  datatype LocationService = LocationService(current: Option<Location>)

  /** A freshly constructed service has no current location. */
  const NewLocationService := LocationService(None)

  /** `get_current_location`. */
  function CurrentLocation(svc: LocationService): (r: Location)
    ensures svc.current.None? ==> r == DefaultLocation
    ensures svc.current.Some? ==> r == svc.current.value
  {
    match svc.current
    case Some(loc) => loc
    case None => DefaultLocation
  }

  /** `set_current_location`: records a bare coordinate with every optional field unset. */
  function SetCurrentLocation(svc: LocationService, lat: real, lon: real): (r: LocationService)
    ensures CurrentLocation(r) == Location(lat, lon, None, None, None, None)
    ensures CurrentLocation(r) != DefaultLocation
  {
    LocationService(Some(Location(lat, lon, None, None, None, None)))
  }

  /** Applies `set_current_location` for every coordinate of `updates`, in order. */
  function ApplyUpdates(svc: LocationService, updates: seq<(real, real)>): LocationService
    decreases |updates|
  {
    if |updates| == 0 then svc
    else ApplyUpdates(SetCurrentLocation(svc, updates[0].0, updates[0].1), updates[1..])
  }

  /**
   * Over any history of updates, the current location is unchanged until the
   * first update, and the last update afterwards; a fresh service therefore
   * shows the default until its first update.
   */
  lemma {:induction false} CurrentLocationAfterUpdates(svc: LocationService, updates: seq<(real, real)>)
    ensures |updates| == 0 ==> CurrentLocation(ApplyUpdates(svc, updates)) == CurrentLocation(svc)
    ensures svc == NewLocationService && |updates| == 0 ==> CurrentLocation(ApplyUpdates(svc, updates)) == DefaultLocation
    ensures |updates| > 0 ==>
              CurrentLocation(ApplyUpdates(svc, updates))
              == Location(updates[|updates| - 1].0, updates[|updates| - 1].1, None, None, None, None)
    decreases |updates|
  {
    if |updates| > 0 {
      var next := SetCurrentLocation(svc, updates[0].0, updates[0].1);
      CurrentLocationAfterUpdates(next, updates[1..]);
      if |updates| > 1 {
        assert updates[1..][|updates[1..]| - 1] == updates[|updates| - 1];
      }
    }
  }

  /** The eight compass names, clockwise from north, as `get_direction_name` lists them. */
  const DirectionNames: seq<string> := [
    "север", "северо-восток", "восток", "юго-восток",
    "юг", "юго-запад", "запад", "северо-запад"
  ]

  /** Python's `round(x)`: nearest integer, halves to the even neighbour. */
  function RoundHalfEven(x: real): (r: int)
    ensures -0.5 <= x - r as real <= 0.5
    ensures x - r as real == 0.5 || x - r as real == -0.5 ==> r % 2 == 0
  {
    var f := x.Floor;
    var frac := x - f as real;
    if frac < 0.5 then f
    else if frac > 0.5 then f + 1
    else if f % 2 == 0 then f
    else f + 1
  }

  /** The contract of `RoundHalfEven` pins its result down: any integer meeting it is the result. */
  lemma RoundHalfEvenUnique(x: real, n: int)
    requires -0.5 <= x - n as real <= 0.5
    requires x - n as real == 0.5 || x - n as real == -0.5 ==> n % 2 == 0
    ensures RoundHalfEven(x) == n
  {
  }

  /** `round(bearing / 45) % 8`, with Python's floor modulo. */
  function SectorIndex(bearing: real): (r: nat)
    ensures r < 8
    ensures exists k: int :: NearestSector(bearing, k) && k % 8 == r
  {
    var k := RoundHalfEven(bearing / 45.0);
    assert bearing - 45.0 * k as real == 45.0 * (bearing / 45.0 - k as real);
    assert NearestSector(bearing, k);
    k % 8
  }

  /**
   * Compass point `k` (in units of 45 degrees) is within 22.5 degrees of the
   * bearing, and on an exact half-sector bearing it is the even neighbour.
   */
  ghost predicate NearestSector(bearing: real, k: int)
  {
    && -22.5 <= bearing - 45.0 * k as real <= 22.5
    && (bearing - 45.0 * k as real == 22.5 || bearing - 45.0 * k as real == -22.5 ==> k % 2 == 0)
  }

  /**
   * `get_direction_name`: one of the eight names, naming a compass point
   * within 22.5 degrees of the bearing; exactly between two points, the
   * even one (Python rounds half to even).
   */
  function DirectionName(bearing: real): (r: string)
    ensures r in DirectionNames
    ensures exists k: int :: NearestSector(bearing, k) && r == DirectionNames[k % 8]
  {
    DirectionNames[SectorIndex(bearing)]
  }

  /** Shifting the argument by an even integer shifts the rounded value by the same amount. */
  lemma RoundHalfEvenShift(x: real, m: int)
    ensures RoundHalfEven(x + (2 * m) as real) == RoundHalfEven(x) + 2 * m
  {
    var k := RoundHalfEven(x);
    assert (k + 2 * m) % 2 == k % 2;
    RoundHalfEvenUnique(x + (2 * m) as real, k + 2 * m);
  }

  /** Whole turns of eight sectors do not change the sector. */
  lemma SectorShift(k: int, turns: int)
    ensures (k + 8 * turns) % 8 == k % 8
  {
    assert k + 8 * turns == k % 8 + 8 * (k / 8 + turns);
  }

  /** The name only depends on the bearing modulo a full turn. */
  lemma DirectionNamePeriodic(bearing: real, turns: int)
    ensures DirectionName(bearing + 360.0 * turns as real) == DirectionName(bearing)
  {
    assert (bearing + 360.0 * turns as real) / 45.0 == bearing / 45.0 + (2 * (4 * turns)) as real;
    RoundHalfEvenShift(bearing / 45.0, 4 * turns);
    SectorShift(RoundHalfEven(bearing / 45.0), turns);
  }

  /** The four cardinal bearings name the four cardinal points. */
  lemma CardinalDirections()
    ensures DirectionName(0.0) == "север"
    ensures DirectionName(90.0) == "восток"
    ensures DirectionName(180.0) == "юг"
    ensures DirectionName(270.0) == "запад"
  {
    RoundHalfEvenUnique(0.0, 0);
    RoundHalfEvenUnique(2.0, 2);
    RoundHalfEvenUnique(4.0, 4);
    RoundHalfEvenUnique(6.0, 6);
  }

  /**
   * Bearings just short of a full turn wrap to north, and exact half-sector
   * bearings follow round-half-to-even: 22.5 gives north but 67.5 gives east.
   */
  lemma DirectionWrapAndTies()
    ensures DirectionName(350.0) == "север"
    ensures DirectionName(337.5) == "север"
    ensures DirectionName(22.5) == "север"
    ensures DirectionName(67.5) == "восток"
  {
    RoundHalfEvenUnique(350.0 / 45.0, 8);
    RoundHalfEvenUnique(337.5 / 45.0, 8);
    RoundHalfEvenUnique(22.5 / 45.0, 0);
    RoundHalfEvenUnique(67.5 / 45.0, 2);
  }

  /** Distance from the origin to the point at `i`. */
  function DistanceTo(distance: DistanceFn, points: seq<(real, real)>, fromLat: real, fromLon: real, i: nat): real
    requires i < |points|
  {
    distance(fromLat, fromLon, points[i].0, points[i].1)
  }

  /**
   * `i` is a nearest point and no earlier point is equally near: the strict
   * `<` of the scan keeps the first minimum.
   */
  ghost predicate IsFirstNearest(distance: DistanceFn, points: seq<(real, real)>, fromLat: real, fromLon: real, i: nat)
  {
    && i < |points|
    && (forall j :: 0 <= j < |points| ==>
          DistanceTo(distance, points, fromLat, fromLon, i) <= DistanceTo(distance, points, fromLat, fromLon, j))
    && (forall j :: 0 <= j < i ==>
          DistanceTo(distance, points, fromLat, fromLon, i) < DistanceTo(distance, points, fromLat, fromLon, j))
  }

  /** There is at most one first nearest point. */
  lemma FirstNearestUnique(distance: DistanceFn, points: seq<(real, real)>, fromLat: real, fromLon: real, i: nat, j: nat)
    requires IsFirstNearest(distance, points, fromLat, fromLon, i)
    requires IsFirstNearest(distance, points, fromLat, fromLon, j)
    ensures i == j
  {
    var di := DistanceTo(distance, points, fromLat, fromLon, i);
    var dj := DistanceTo(distance, points, fromLat, fromLon, j);
    if i < j {
      assert false;
    } else if j < i {
      assert false;
    }
  }

  /**
   * `find_nearest_point`: `None` for no points; otherwise the index of the
   * first nearest point and its distance.
   */
  method FindNearestPoint(distance: DistanceFn, points: seq<(real, real)>, fromLat: real, fromLon: real)
    returns (r: Option<(nat, real)>)
    ensures r.None? <==> |points| == 0
    ensures r.Some? ==> IsFirstNearest(distance, points, fromLat, fromLon, r.value.0)
    ensures r.Some? ==> r.value.0 < |points| && r.value.1 == DistanceTo(distance, points, fromLat, fromLon, r.value.0)
  {
    if |points| == 0 {
      return None;
    }
    // `min_distance = float('inf')` is modelled by `found == false`.
    var found := false;
    var minDistance: real := 0.0;
    var minIndex: nat := 0;
    var i := 0;
    while i < |points|
      invariant 0 <= i <= |points|
      invariant found <==> i > 0
      invariant found ==> minIndex < i && minDistance == DistanceTo(distance, points, fromLat, fromLon, minIndex)
      invariant found ==> forall j :: 0 <= j < i ==> minDistance <= DistanceTo(distance, points, fromLat, fromLon, j)
      invariant found ==> forall j :: 0 <= j < minIndex ==> minDistance < DistanceTo(distance, points, fromLat, fromLon, j)
    {
      var d := distance(fromLat, fromLon, points[i].0, points[i].1);
      if !found || d < minDistance {
        found := true;
        minDistance := d;
        minIndex := i;
      }
      i := i + 1;
    }
    return Some((minIndex, minDistance));
  }
}
