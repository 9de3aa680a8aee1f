# Emergency client domain core, modelled in Dafny

This project models the in-memory domain logic of an emergency-management
client written in Python. The model has four parts:

- **Location service**: the current location versus the Moscow default, compass-sector names
  for a bearing, and the scan that finds the nearest point.
- **Shelters**: capacity arithmetic, the record defaults, the type icon table, the dictionary
  projection, and the registry queries (active, by id, by type, with spare capacity,
  and the N nearest).
- **Risks**: the level and type enumerations, the record defaults, the time-window
  activity test with the clock as a parameter, and the colour, name and icon tables.
  It also covers the risk service's mock list, its queries and the statistics it computes
  over that list.
- **Notification feed**: an ordered list of notifications with read state, the add,
  mark-one, mark-all and delete operations, the unread and newest-first views, and
  subscribe and unsubscribe. Subscriber fan-out is recorded as a delivery log.

Everything is a pure function over immutable datatypes. The haversine distance
(`calculate_distance`) is an uninterpreted function parameter of type
`(real, real, real, real) -> real`. Clock readings (`datetime.now()`) are integer
parameters named `now`. The random suffix of a new notification id is a string
parameter named `token`. Python `float` is modelled as `real` and Python `int` as `int`.
Python's `round` is modelled half-to-even, and `%` by a positive divisor as floor modulo.
A negative `limit` on the nearest-shelter slice is modelled as Python's `[:limit]`, which
counts from the end. The service classes' `async` methods are modelled as plain functions.

Files:

- `common.dfy`: the `Option` type, the order-preserving filter (a Python list
  comprehension), the first-match scan, removal at an index, and the subsequence relation.
- `sorting.dfy`: a stable insertion sort keyed by a real. Its stability lemma is what
  Python's `list.sort` and `sorted` guarantee.
- `location.dfy`, `shelter_model.dfy`, `shelter_registry.dfy`, `risk_model.dfy`,
  `risk_registry.dfy` and `notifications.dfy`: one module per source class or group of
  classes.

The code behaves as follows, and the model follows it:

- Nothing in `ShelterCapacity` keeps `current` within `[0, total]`. There is no
  occupy or release operation, and no capacity-violation error.
  `ShelterModel.CapacityBounds` is therefore conditional, and `ShelterModel.OverfullCapacity`
  shows that out-of-range counters are accepted.
- `get_active_risks` returns the mock list without checking `is_active` or the coordinates.
- `get_risks_for_location` ignores its point and its radius.
- Notification ids are `"notif_"` followed by eight characters of a random uuid. The code
  does not check that they are unique, so the lookups act on the first match.
  `Notifications.AddThenDelete` assumes a fresh id.
- `get_nearest_shelters` bounds the number of results by `limit` (default 5); it takes no distance bound.
- The statistics dictionary keys `by_level` and `by_type` by the enum members' string
  values. The model keys them by the enum members themselves. `RiskModel.LevelFromValue`
  and `RiskModel.TypeFromValue` show that the two are in bijection.

## Model

| member | source | states |
|---|---|---|
| Location.SetCurrentLocation | src/services/location_service.py:37-42 | After a set, the current location is exactly the given coordinate with every optional field unset, and it is never the default |
| Location.CurrentLocationAfterUpdates | src/services/location_service.py:22-42 | For any history of sets: the location is unchanged until the first set, so a fresh service shows the default (55.7558, 37.6173, Москва); afterwards it is the last set coordinate |
| Location.RoundHalfEven | src/services/location_service.py:93 | Python `round`: the result is within 0.5 of the argument, and an exact half goes to the even neighbour |
| Location.CurrentLocation | src/services/location_service.py:31-35 | The set location when there is one, and the Moscow default otherwise |
| Location.DirectionName | src/services/location_service.py:86-94 | The result is always one of the eight names, and it names a compass point within 22.5 degrees of the bearing; at exactly 22.5 degrees from two points it names the even-numbered one |
| Location.DirectionNamePeriodic | src/services/location_service.py:93-94 | Adding whole turns of 360 degrees to the bearing does not change the name |
| Location.CardinalDirections | src/services/location_service.py:89-94 | Bearings 0, 90, 180 and 270 give север, восток, юг and запад |
| Location.DirectionWrapAndTies | src/services/location_service.py:89-94 | 350 and 337.5 wrap to север; 22.5 rounds to север and 67.5 to восток (ties go to even) |
| Location.FindNearestPoint | src/services/location_service.py:96-112 | `None` exactly when there are no points. Otherwise: an in-range index whose distance is at most every other point's and strictly less than every earlier point's (the first minimum wins), returned with its distance |
| Location.FirstNearestUnique | src/services/location_service.py:106-110 | The first-minimum condition determines the index uniquely, so the scan's answer is the only possible one |
| ShelterModel.NewCapacity | src/models/shelter.py:17-21 | `current` defaults to 0, so everything is available and occupancy is 0 |
| ShelterModel.Available | src/models/shelter.py:23-25 | `current + available == total` |
| ShelterModel.OccupancyPercent | src/models/shelter.py:27-31 | 0 when `total == 0`; otherwise the percentage `p` with `p * total == current * 100` |
| ShelterModel.CapacityBounds | src/models/shelter.py:17-31 | Only when `0 <= current <= total`: available lies in `[0, total]` and occupancy in `[0, 100]` |
| ShelterModel.OverfullCapacity | src/models/shelter.py:17-31 | The counters are unchecked: total 10 with current 15 gives available -5 and occupancy 150 |
| ShelterModel.NewShelter | src/models/shelter.py:34-64 | Defaults: active, accessible, water, power and communication are true; medical and food are false; no contacts or notes; no images; verified at `now` |
| ShelterModel.TypeIcon | src/models/shelter.py:66-75 | The pin "📍" comes back exactly for a type outside the five known ones; a known type gets exactly its own table icon |
| ShelterModel.TypeIconsDistinct | src/models/shelter.py:66-75 | Different known types get different icons |
| ShelterModel.ToDict | src/models/shelter.py:77-86 | Copies id, name, type, address and the active flag; `capacity_available` plus `current` equals `total` |
| ShelterRegistry.MockShelters | src/services/shelter_service.py:15-63 | The fixture has three shelters, all active |
| ShelterRegistry.MockCapacity | src/services/shelter_service.py:27 | The first fixture shelter (200 total, 45 used) has 155 free places and is 22.5 % occupied |
| ShelterRegistry.ActiveShelters | src/services/shelter_service.py:69-71 | Exactly the active stored shelters, every copy of each, as a subsequence of the stored list |
| ShelterRegistry.AllActive | src/services/shelter_service.py:69-71 | When every stored shelter is active, the active list is the stored list |
| ShelterRegistry.ShelterById | src/services/shelter_service.py:73-78 | `None` exactly when no shelter has the id; otherwise the first shelter that has it |
| ShelterRegistry.SheltersByType | src/services/shelter_service.py:80-82 | Exactly the shelters of that type, every copy of each, as a subsequence of the stored list |
| ShelterRegistry.SheltersWithCapacity | src/services/shelter_service.py:101-106 | Exactly the active shelters with at least `k` free places, every copy of each, as a subsequence of the active list |
| ShelterRegistry.SheltersWithCapacityOnePass | src/services/shelter_service.py:101-106 | The two-step query equals one filter of the stored list by "active and with room" |
| ShelterRegistry.AllHaveRoom | src/services/shelter_service.py:101-106 | When every stored shelter is active with enough room, the query returns the stored list |
| ShelterRegistry.MockSheltersAllHaveRoom | src/services/shelter_service.py:15-106 | With the default minimum of one place, all three fixture shelters come back |
| ShelterRegistry.SliceLength | src/services/shelter_service.py:99 | The length of `xs[:limit]`: `min(limit, len(xs))` for a non-negative limit; for a negative limit, `-limit` elements fewer than `len(xs)`, or none when that many are not there |
| ShelterRegistry.RankedEntries | src/services/shelter_service.py:88-98 | Every ranked entry is an active stored shelter paired with its own computed distance |
| ShelterRegistry.NearestShelters | src/services/shelter_service.py:84-99 | Slice length of the active count; a prefix of the stable ranking; each entry an active stored shelter with its own distance; nearest first |
| ShelterRegistry.NearestAreNearest | src/services/shelter_service.py:98-99 | No active shelter left out of the result is nearer than a returned one |
| ShelterRegistry.NearestTiesKeepOrder | src/services/shelter_service.py:98 | Shelters at equal distance keep their order from the active list |
| ShelterRegistry.MockNearestReturnsAll | src/services/shelter_service.py:84-99 | With the fixture and the default limit 5, all three shelters come back, whatever the distances |
| Sorting.Sort | src/services/shelter_service.py:98 | The sorted list is a permutation of its input, ordered by the key |
| Sorting.SortStable | src/services/shelter_service.py:98 | Stability: the elements with any one key appear in the output in their input order |
| RiskModel.LevelFromValue | src/models/risk.py:9-14 | The level with the given string value; `None`, standing for Python's `ValueError`, only when no level has that value |
| RiskModel.TypeFromValue | src/models/risk.py:17-28 | The type with the given string value; `None`, standing for Python's `ValueError`, only when no type has that value |
| RiskModel.LevelsClosed | src/models/risk.py:9-14 | Exactly four distinct levels, each round-tripping through its string value |
| RiskModel.TypesClosed | src/models/risk.py:17-28 | Exactly ten types, each round-tripping through its string value |
| RiskModel.TypesDistinct | src/models/risk.py:17-28 | The ten types are distinct |
| RiskModel.NewRisk | src/models/risk.py:40-61 | Defaults: no start or end time, no instructions, no evacuation, source "МЧС", created and updated at `now`; such a risk is active at every time |
| RiskModel.IsActive | src/models/risk.py:63-71 | Active exactly when the start is absent or not after `now`, and the end is absent or not before `now` |
| RiskModel.IsActiveWindow | src/models/risk.py:63-71 | Inactive before the start or after the end; active at either bound and with no bounds |
| RiskModel.LevelColor | src/models/risk.py:73-81 | Each level gets exactly its own table colour, so the grey fallback never shows |
| RiskModel.LevelColorsDistinct | src/models/risk.py:73-81 | Different levels get different colours |
| RiskRegistry.MockRisks | src/services/risk_service.py:59-98 | The fixture has two risks, neither with a time window |
| RiskRegistry.ActiveRisks | src/services/risk_service.py:16-21 | The mock list element for element, whatever the coordinates; `is_active` is not consulted, and every returned risk is active at any time |
| RiskRegistry.ActiveRisksIgnoreArguments | src/services/risk_service.py:16-21 | The "active" list depends neither on the coordinates nor on the service state |
| RiskRegistry.RisksForLocation | src/services/risk_service.py:29-35 | The location query returns the same list as `get_active_risks()` |
| RiskRegistry.RisksForLocationIgnoresRadius | src/services/risk_service.py:29-35 | Any two location queries at the same clock reading agree, whatever point and radius they name; in particular every radius gives what the default radius 50 gives |
| RiskRegistry.RiskById | src/services/risk_service.py:23-27 | A hit exactly when the id is cached, returning the cached risk |
| RiskRegistry.RiskByIdAlwaysMisses | src/services/risk_service.py:12-27 | The cache of a new service is empty, so every lookup gives `None` |
| RiskRegistry.Statistics | src/services/risk_service.py:37-57 | `total` is the list length. `by_level` has exactly the four keys, each the number of risks at that level, summing to `total`. `by_type` has exactly the occurring types, each counting at least 1, summing to `total` |
| RiskRegistry.StatisticsStep | src/services/risk_service.py:52-55 | One loop iteration keeps the counts describing the list seen so far |
| RiskRegistry.RiskStatisticsOf | src/services/risk_service.py:37-42 | `total` equals the length of the `get_active_risks()` list |
| RiskRegistry.FloodThenHeatStatistics | src/services/risk_service.py:41-57 | A medium flood followed by a low heat wave gives total 2, levels low 1, medium 1, high 0, critical 0, and types flood 1, heat 1 |
| RiskRegistry.MockStatistics | src/services/risk_service.py:59-98 | The fixture's statistics are exactly those |
| RiskRegistry.RiskTypeName | src/services/risk_service.py:100-114 | Each type gets exactly its own table name, so "Неизвестно" never shows |
| RiskRegistry.RiskTypeNamesDistinct | src/services/risk_service.py:100-114 | Different types get different names |
| RiskRegistry.RiskIcon | src/services/risk_service.py:116-130 | Each type gets exactly its own table icon; the "⚠️" fallback coincides with exactly one of them, the technogenic icon |
| Notifications.NewNotification | src/services/notification_service.py:18-34 | A new notification is unread with no action; an absent creation time becomes the clock reading |
| Notifications.TypeColor | src/services/notification_service.py:36-44 | Each notification gets exactly its type's table colour, so the grey fallback never shows |
| Notifications.TypeIcon | src/services/notification_service.py:46-54 | Each notification gets exactly its type's table icon, so the "📌" fallback never shows |
| Notifications.TypeColorsAndIconsDistinct | src/services/notification_service.py:36-54 | Different types get different colours and different icons |
| Notifications.MockFeed | src/services/notification_service.py:60-75 | A new service holds one unread notification and no subscribers |
| Notifications.FanOut | src/services/notification_service.py:147-153 | A round leaves the notifications and subscribers alone and appends one delivery per subscriber to the log |
| Notifications.FailingSubscriberIsolated | src/services/notification_service.py:147-153 | With the default type `info`, a raising subscriber neither undoes the change nor stops the next subscriber being called |
| Notifications.UnreadNotifications | src/services/notification_service.py:85-87 | Exactly the unread notifications, every copy of each, as a subsequence of the stored list |
| Notifications.UnreadCountBounds | src/services/notification_service.py:89-91 | The unread count is at most the number of notifications, and is 0 exactly when every notification is read |
| Notifications.AddNotification | src/services/notification_service.py:108-127 | Appends exactly one unread notification with id `notif_` plus the token; the earlier entries are unchanged; the unread count rises by 1; fan-out fires once |
| Notifications.MarkAsRead | src/services/notification_service.py:93-100 | On a present id: only the first match is marked read, the result is true, and fan-out fires once. On an unknown id: false, with no change and no fan-out |
| Notifications.MarkAsReadIdempotent | src/services/notification_service.py:93-99 | Marking the same id twice leaves the notifications as marking it once |
| Notifications.MarkAsReadUnreadCount | src/services/notification_service.py:93-100 | The unread count drops by one exactly when the first match was unread, and is otherwise unchanged |
| Notifications.MarkAllAsRead | src/services/notification_service.py:102-106 | Every notification is read and otherwise unchanged, the unread count is 0, and fan-out fires once even for an empty or fully read feed |
| Notifications.DeleteNotification | src/services/notification_service.py:129-136 | On a present id: only the first match is removed, the length drops by one, the result is true, and fan-out fires once. On an unknown id: false, with no change and no fan-out |
| Notifications.AddThenDelete | src/services/notification_service.py:108-136 | Deleting a just-added notification whose id was new restores the previous list |
| Notifications.DeleteFreshLast | src/services/notification_service.py:129-136 | When only the last notification has an id, deleting that id finds the last position and restores the list before it |
| Notifications.AllNotifications | src/services/notification_service.py:77-83 | A permutation of the stored list with non-increasing creation time |
| Notifications.AllNotificationsTiesKeepOrder | src/services/notification_service.py:77-83 | Notifications created at the same instant keep their stored order, because a reversed Python sort is still stable |
| Notifications.Subscribe | src/services/notification_service.py:138-140 | Appends the subscriber (duplicates allowed) without firing |
| Notifications.Unsubscribe | src/services/notification_service.py:142-145 | Removes the first occurrence only, or does nothing when the subscriber is absent; never fires |
| Notifications.SubscribeThenUnsubscribe | src/services/notification_service.py:138-145 | Unsubscribing a subscriber that was just subscribed for the first time restores the list |

## Left out

- `calculate_distance` and `get_bearing` (src/services/location_service.py:44-84): float trigonometry. The distance is an uninterpreted parameter, so nothing is claimed about symmetry or zero distance.
- Location.FindNearestPoint: distances are finite reals. When every distance is +inf or NaN the Python scan returns (0, inf); a NaN or +inf distance elsewhere is skipped, and -inf would win. Non-finite distances are not modelled.
- Float rounding: `occupancy_percent`, `bearing / 45` and the distances are exact reals. An exact half in the model can sit just off a half in binary floating point. On a zero total, `occupancy_percent` returns the int `0` (src/models/shelter.py:30) where the model returns the real 0; the two compare equal.
- `get_all_shelters` is the stored list itself. It is the `shelters` argument of every registry query rather than a member of its own.
- The UI, web server, settings, database service and weather service are outside the model, as are the incident, user and instruction records. The weather service's wind-direction helper repeats `get_direction_name`, which is modelled once.
- `async`: nothing in these services awaits, so their methods are modelled as plain functions.
- Concurrency: the feed and registries are modelled as values changed one operation at a time.
- Callbacks are subscriber values (an id and a `raises` flag), not closures. What a callback does besides raising is not modelled.
- Occupy and release operations on shelter capacity do not exist in the code and are not modelled.
- The `"notif_" + uuid4().hex[:8]` id: the eight-character random suffix is the `token` parameter, and its length and hex alphabet are not constrained.
- `Instruction.get_category_name` and the other record-to-dictionary projections outside `Shelter.to_dict` are not part of this model.
- Notifications.FanOut: a raising subscriber stands for one that raises a subclass of `Exception`, which `_notify_callbacks` (src/services/notification_service.py:147-153) swallows. A `BaseException` such as `SystemExit` or `KeyboardInterrupt` escapes the loop, skips the later callbacks, and keeps `mark_as_read` and `delete_notification` from returning `True`; this is not modelled.
- RiskModel.NewRisk: one clock reading `now` stamps both `created_at` and `updated_at`. The source reads the clock once for each field (src/models/risk.py:60-61), so the two can differ by a few microseconds.
- RiskRegistry.MockRisks: one clock reading stamps every risk in the list, where the source reads the clock separately for each record.
- ShelterRegistry.MockShelters: one clock reading stamps `last_verified` on every shelter, where the source reads the clock separately for each record.
- RiskRegistry.Statistics: `by_type` is a map, so the key order of the Python dictionary (the order in which each type first occurs) is not modelled.
- Shared references: records are values in the model. The Python services hand out the stored objects themselves: `add_notification` returns the notification it stores, `get_unread_notifications` and `get_all_notifications` build new lists over the same objects, `get_all_shelters` returns the stored list, and `mark_as_read` and `mark_all_as_read` set `is_read` in place. A caller holding one of those objects sees the change; in the model a value returned earlier, such as the second component of `Notifications.AddNotification`, stays as it was. This aliasing is not modelled.
