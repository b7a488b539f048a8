# Hotel booking: LFU caches and the hotel and room services

This project models the caching core of a Spring hotel-booking service and proves properties of that model:

- **`LfuCacheBase<T>`** is a bounded least-frequently-used cache. It maps string keys to entries, each holding a value and an access counter. Its instances are `RoomCache` (capacity 3), `HotelCache` (3) and `FacilityCache` (6); the last two go through `LfuCacheList`.
- **`HotelService`** and **`RoomService`** validate requests, read through their cache and write through to it. The repositories behind them are modelled as tables of rows.
- **`Room.addFacility` / `Room.removeFacility`** are the in-memory many-to-many link between rooms and facilities. `Facility` equality is by id.

Modules, one or more per file:

| file | module | models |
|---|---|---|
| `common.dfy` | `Common` | null as `Option`, the exceptions as `Error`, `String.isBlank` |
| `cache.dfy` | `Cache` | `LfuCacheBase` as a class with `capacity` and an `entries` map |
| `cache_properties.dfy` | `CacheProperties` | lemmas about `put`: bound, frame, eviction choice |
| `cache_instances.dfy` | `CacheInstances` | `LfuCache`, `LfuCacheList` and the three named caches |
| `records.dfy` | `Records` | the rows of the hotel, room and facility tables |
| `tables.dfy` | `Tables` | the Spring Data repository operations on a table |
| `hotels.dfy` | `Hotels` | `HotelService` |
| `rooms.dfy` | `Rooms` | `RoomService` |
| `entities.dfy` | `Entities` | the `Room` and `Facility` objects and their link |

### How the cache is modelled

- **Eviction.** `put` on a full cache evicts the first key, in `HashMap` iteration order, with the smallest counter. That order is not specified in the source, so the model states only what holds for every order:
  - `PutOutcome` says SOME least-frequent key is evicted;
  - `FindLeastFrequentlyUsed` visits the keys in an arbitrary order and returns the first minimal key in that order.
- **Services and the cache.** Each service call works on values loaded in its own persistence context, so the services are modelled over value records. Each service's object invariant `Valid()` holds only what the store and the cache guarantee by themselves: the cache's size bound and a primary key on the table. A cache can go stale, and the source reaches such states: a room saved or deleted changes its hotel's room list without touching the hotel cache. So agreement with the table is a separate predicate, `Coherent()`:
  - every method of a service keeps `Coherent()` when it held before the call;
  - a cache hit returns the cached value whether or not it is coherent;
  - only while the cache is coherent is the answer the store's.
  - **Rooms:** `Coherent()` means every cached room equals the stored room with the same id.
  - **Hotels:** `Coherent()` means that under every key without `:` (a hotel id), the cache holds the one-element list of the stored hotel. Filter keys (`city:category`) share the same key space and may hold stale lists. The lemmas show that no filter key can collide with an id, and `StaleHitServesCachedCopy` shows a stale hit.

## Model

| member | source | states |
|---|---|---|
| Common.BlankExamples | src/main/java/com/example/hotelbookingv2/service/HotelService.java:63 | `isBlank` holds for the empty string and whitespace, and not for a string with a letter; a null string counts as blank in the `== null || isBlank()` guards |
| Cache.LfuCacheBase.constructor | src/main/java/com/example/hotelbookingv2/cache/LfuCacheBase.java:23-25 | a new cache is empty and keeps the capacity given |
| Cache.LfuCacheBase.Get | src/main/java/com/example/hotelbookingv2/cache/LfuCacheBase.java:27-40 | a miss returns null and changes nothing; a hit returns the stored value and raises that key's counter by one, nothing else |
| Cache.LfuCacheBase.Put | src/main/java/com/example/hotelbookingv2/cache/LfuCacheBase.java:42-58 | a known key gets the new value and one more use; a new key evicts a least-frequent key only when the cache is full and then enters with counter 1; the size bound holds afterwards |
| Cache.LfuCacheBase.FindLeastFrequentlyUsed | src/main/java/com/example/hotelbookingv2/cache/LfuCacheBase.java:60-69 | the scan finds no key iff the cache is empty; otherwise the key found has the minimal counter and is the first minimal key in the visiting order, which lists every key once |
| Cache.LfuCacheBase.EvictLeastFrequentlyUsed | src/main/java/com/example/hotelbookingv2/cache/LfuCacheBase.java:60-76 | exactly one least-frequent key is removed from a non-empty cache; an empty cache stays empty |
| Cache.LfuCacheBase.Remove | src/main/java/com/example/hotelbookingv2/cache/LfuCacheBase.java:78-82 | the key is gone and every other entry is unchanged; an absent key is a no-op |
| Cache.LfuCacheBase.Clear | src/main/java/com/example/hotelbookingv2/cache/LfuCacheBase.java:84-87 | the cache is empty |
| Cache.MapRemoveSize | src/main/java/com/example/hotelbookingv2/cache/LfuCacheBase.java:52-55 | eviction before an insert frees exactly one slot |
| CacheProperties.NewEntryIsLeastFrequent | src/main/java/com/example/hotelbookingv2/cache/LfuCacheBase.java:17-20 | a new entry holds its value with counter 1, and in a well-formed cache it is at once a least-frequent key |
| CacheProperties.TouchedKeepsWellFormed | src/main/java/com/example/hotelbookingv2/cache/LfuCacheBase.java:34 | a hit keeps every key and value, raises only that key's counter by one, and keeps the cache well formed |
| CacheProperties.PutStoresValue | src/main/java/com/example/hotelbookingv2/cache/LfuCacheBase.java:42-58 | after `put(id, v)` the key `id` is present and holds `v` |
| CacheProperties.PutKeepsBound | src/main/java/com/example/hotelbookingv2/cache/LfuCacheBase.java:52-55 | with a positive capacity, the size bound and positive counters survive every put |
| CacheProperties.PutFrame | src/main/java/com/example/hotelbookingv2/cache/LfuCacheBase.java:42-58 | a put writes only its own key, and every other key that stays keeps its entry; updating a known key evicts nothing |
| CacheProperties.PutLosesAtMostOne | src/main/java/com/example/hotelbookingv2/cache/LfuCacheBase.java:52-55 | a put removes at most one key, and none from a cache below capacity |
| CacheProperties.PutFrequency | src/main/java/com/example/hotelbookingv2/cache/LfuCacheBase.java:17-20 | after a put the key's counter is the old counter plus one, or 1 for a new key |
| CacheProperties.PutSparesMoreFrequent | src/main/java/com/example/hotelbookingv2/cache/LfuCacheBase.java:60-72 | a key used strictly more often than another key in the cache is never evicted |
| CacheProperties.AnyTiedKeyMayBeEvicted | src/main/java/com/example/hotelbookingv2/cache/LfuCacheBase.java:64-69 | when all counters tie, evicting any one of the keys meets the specification, so the choice rests on iteration order |
| CacheProperties.FourthHotelScenario | src/main/java/com/example/hotelbookingv2/cache/LfuCacheBase.java:42-76 | with capacity 3, h1 used twice, and h2 and h3 once each, putting h4 keeps h1 and h4, drops exactly one of h2 and h3, and leaves three keys |
| CacheInstances.NewRoomCache | src/main/java/com/example/hotelbookingv2/cache/RoomCache.java:7-10 | the room cache is a fresh, empty `LfuCache` of capacity 3 |
| CacheInstances.NewHotelCache | src/main/java/com/example/hotelbookingv2/cache/HotelCache.java:7-10 | the hotel cache is a fresh, empty `LfuCacheList` of capacity 3 |
| CacheInstances.NewFacilityCache | src/main/java/com/example/hotelbookingv2/cache/FacilityCache.java:7-10 | the facility cache is a fresh, empty `LfuCacheList` of capacity 6 |
| Tables.FindById | src/main/java/com/example/hotelbookingv2/service/RoomService.java:64-65 | the lookup fails iff no row has the id; a row found is in the table and has the id |
| Tables.Filter | src/main/java/com/example/hotelbookingv2/service/RoomService.java:41 | a derived query returns table rows that satisfy the condition, and every satisfying row |
| Tables.SavedMembers | src/main/java/com/example/hotelbookingv2/service/RoomService.java:89 | after `save` the saved row is in the table and every other row was there before |
| Tables.SavedFind | src/main/java/com/example/hotelbookingv2/service/RoomService.java:89 | after `save` looking up the row's id gives the saved row; other ids give what they gave before |
| Tables.SavedUnique | src/main/java/com/example/hotelbookingv2/service/RoomService.java:89 | `save` keeps the primary key unique |
| Tables.DeletedFind | src/main/java/com/example/hotelbookingv2/service/RoomService.java:103 | after `deleteById` the id is not found and other ids are unaffected |
| Tables.DeletedMembers | src/main/java/com/example/hotelbookingv2/service/RoomService.java:103 | `deleteById` keeps only rows that were there, and none with the id |
| Tables.SavedAllSnoc | src/main/java/com/example/hotelbookingv2/service/RoomService.java:184 | `saveAll` of a list extended by one row equals `saveAll` followed by `save` of that row |
| Tables.SavedAllUnique | src/main/java/com/example/hotelbookingv2/service/RoomService.java:184 | `saveAll` keeps the primary key unique |
| Hotels.FilterKeyHasSeparator | src/main/java/com/example/hotelbookingv2/service/HotelService.java:47-49 | every filter key contains `:`, so it differs from any hotel id that does not |
| Hotels.CacheKeyInjective | src/main/java/com/example/hotelbookingv2/service/HotelService.java:47-49 | for cities without `:`, two filter keys are equal iff the rendered city and category are equal |
| Hotels.NullCitySharesKey | src/main/java/com/example/hotelbookingv2/service/HotelService.java:47-49 | a null city and the literal city "null" produce the same key |
| Hotels.GenerateCacheKey | src/main/java/com/example/hotelbookingv2/service/HotelService.java:47-49 | the key is the rendered city, then `:`, then the rendered category, split at the position after the city |
| Hotels.FindHotels | src/main/java/com/example/hotelbookingv2/service/HotelService.java:32-41 | the query chosen on a miss returns exactly the stored hotels that match the non-null filters |
| Hotels.PutKeepsCoherent | src/main/java/com/example/hotelbookingv2/service/HotelService.java:67 | a put of a hotel's one-element list under its id keeps every id key coherent with the table |
| Hotels.MergedHotelProperties | src/main/java/com/example/hotelbookingv2/service/HotelService.java:89-97 | the merged hotel keeps its id, takes the supplied name, city, category and date, and takes the supplied rooms only when that list is non-empty; merging again changes nothing |
| Hotels.CoherentAnswerIsStored | src/main/java/com/example/hotelbookingv2/service/HotelService.java:51-59 | while the cache is coherent, the answer for a hotel id is the stored hotel or not-found, whether it comes from the cache or the table |
| Hotels.StaleHitServesCachedCopy | src/main/java/com/example/hotelbookingv2/service/HotelService.java:52-55 | when the stored hotel's room list grew behind the cache, a hit returns the cached copy, which differs from the stored one |
| Hotels.HotelService.constructor | src/main/java/com/example/hotelbookingv2/service/HotelService.java:19-22 | the service starts from a table with unique ids and a bounded cache, and is coherent when the cache agrees with the table |
| Hotels.HotelService.GetHotels | src/main/java/com/example/hotelbookingv2/service/HotelService.java:24-45 | a hit returns the cached list and counts one use; a miss returns exactly the matching hotels and puts them under the filter key |
| Hotels.HotelService.GetHotelById | src/main/java/com/example/hotelbookingv2/service/HotelService.java:51-59 | a non-empty cached list answers with its head, however stale; otherwise the store's hotel or not-found is returned; while the cache is coherent, the answer for an id without `:` is the store's; coherence is kept |
| Hotels.HotelService.SaveHotel | src/main/java/com/example/hotelbookingv2/service/HotelService.java:62-69 | a null or blank name is rejected with nothing changed; otherwise the hotel is saved and its one-element list is put under its id |
| Hotels.HotelService.DeleteHotel | src/main/java/com/example/hotelbookingv2/service/HotelService.java:71-77 | an unknown id is not-found with nothing changed; otherwise the row is deleted and only that key leaves the cache |
| Hotels.HotelService.UpdateHotel | src/main/java/com/example/hotelbookingv2/service/HotelService.java:79-102 | name, city and category are checked in that order, then existence; the merge copies those fields and the date, and replaces the rooms only when a non-empty list is given; the merged hotel is saved and cached under the id; every error changes nothing |
| Rooms.RoomsOfHotel | src/main/java/com/example/hotelbookingv2/service/RoomService.java:41 | returns the stored rooms of that hotel, and all of them |
| Rooms.RoomsWithFacility | src/main/java/com/example/hotelbookingv2/service/RoomService.java:53 | returns the stored rooms joined to a facility of that name, and all of them |
| Rooms.RoomNumbers | src/main/java/com/example/hotelbookingv2/service/RoomService.java:148-149 | lists the request's room numbers, position by position |
| Rooms.NoDuplicatesIffDistinct | src/main/java/com/example/hotelbookingv2/service/RoomService.java:148-155 | the group-and-count duplicate list is empty iff all numbers differ |
| Rooms.CountRepeated | src/main/java/com/example/hotelbookingv2/service/RoomService.java:149-151 | a number at two positions is counted at least twice |
| Rooms.CountDistinct | src/main/java/com/example/hotelbookingv2/service/RoomService.java:149-151 | in a list without repeats no number is counted more than once |
| Rooms.CountPositive | src/main/java/com/example/hotelbookingv2/service/RoomService.java:149 | a number that occurs is counted at least once |
| Rooms.CountZero | src/main/java/com/example/hotelbookingv2/service/RoomService.java:149 | a number that does not occur is counted zero times |
| Rooms.TakenNumbers | src/main/java/com/example/hotelbookingv2/service/RoomService.java:160-165 | the list is empty iff no requested room, with a hotel and a number, reuses a number of its hotel; each entry is the number of a room that does |
| Rooms.InvalidRoomNumbers | src/main/java/com/example/hotelbookingv2/service/RoomService.java:172-177 | the list is empty iff every requested room has a non-blank number, a type, a price of at least 0.1 and a hotel |
| Rooms.BulkRejection | src/main/java/com/example/hotelbookingv2/service/RoomService.java:144-182 | the bulk checks run in source order: empty list, null number (the collector throws), duplicate numbers, numbers already used, invalid fields; nothing is rejected iff the list is non-empty, its numbers are distinct, none is taken and every room is valid |
| Rooms.PutKeepsRoomsCoherent | src/main/java/com/example/hotelbookingv2/service/RoomService.java:66 | a put of the stored room under its id keeps every cached room equal to the stored room |
| Rooms.MergedRoomProperties | src/main/java/com/example/hotelbookingv2/service/RoomService.java:123-133 | the merged room keeps id and hotel and takes the supplied number, type and price; supplied facilities become exactly those of them that are stored, so all are stored ones; without them the room keeps its own; merging again changes nothing |
| Rooms.RoomService.constructor | src/main/java/com/example/hotelbookingv2/service/RoomService.java:30-35 | the service starts from a table with unique ids and a bounded cache, and is coherent when the cache agrees with the table |
| Rooms.RoomService.FindRoomsByHotel | src/main/java/com/example/hotelbookingv2/service/RoomService.java:37-46 | a null or blank id is invalid input; not-found iff no room of the hotel exists; a non-blank id of a hotel with rooms always succeeds, with a non-empty list of exactly its rooms; no other error occurs |
| Rooms.RoomService.FindRoomsByFacility | src/main/java/com/example/hotelbookingv2/service/RoomService.java:48-59 | a null or blank name is invalid input; not-found iff no room has such a facility; a non-blank name that some room has always succeeds, with a non-empty list of exactly those rooms; no other error occurs |
| Rooms.RoomService.GetRoomById | src/main/java/com/example/hotelbookingv2/service/RoomService.java:61-69 | a hit counts one use and returns the cached room; a miss returns the stored room in every state and puts it under the id; an unknown id is not-found with the cache unchanged; while the cache is coherent, a hit too gives the store's answer; coherence is kept |
| Rooms.RoomService.SaveRoom | src/main/java/com/example/hotelbookingv2/service/RoomService.java:72-92 | it rejects, in order, null fields, a price below 0.1, and a number already used in the hotel, changing nothing; a room that passes all three checks is always saved, put under its id and returned |
| Rooms.RoomService.DeleteRoom | src/main/java/com/example/hotelbookingv2/service/RoomService.java:95-105 | a null or blank id is invalid input, an unknown id not-found; otherwise the row is deleted and only that key leaves the cache |
| Rooms.RoomService.UpdateRoom | src/main/java/com/example/hotelbookingv2/service/RoomService.java:107-140 | it checks, in order, the arguments, existence, a blank number, and a missing or low price; the merge copies number, type and price and, when facilities are given, replaces them with the stored ones among them; the result is saved and cached under the id |
| Rooms.BulkPutKeepsCoherent | src/main/java/com/example/hotelbookingv2/service/RoomService.java:184-185 | with the first rooms of the batch saved and cached, putting the next one keeps the cache coherent with one more saved |
| Rooms.RoomService.CacheAll | src/main/java/com/example/hotelbookingv2/service/RoomService.java:185 | puts the saved rooms in order, each step a `put` of the next room under its id; a cache coherent with the table before the batch is coherent with the store afterwards |
| Rooms.RoomService.SaveRoomsBulk | src/main/java/com/example/hotelbookingv2/service/RoomService.java:142-188 | a null list is invalid input, then `BulkRejection` decides; on success `saveAll` runs and every saved room is put in turn, each step a `put`; a coherent cache stays coherent |
| Entities.Facility.constructor | src/main/java/com/example/hotelbookingv2/model/Facility.java:40-43 | a new facility has the id and name given and no rooms |
| Entities.Room.constructor | src/main/java/com/example/hotelbookingv2/model/Room.java:34-53 | a new room has no facilities |
| Entities.IndexOfFacility | src/main/java/com/example/hotelbookingv2/model/Facility.java:45-55 | the first position holding a facility with the id, or -1 iff there is none |
| Entities.IndexOf | src/main/java/com/example/hotelbookingv2/model/Room.java:64 | the first position of the object, or -1 iff it is absent |
| Entities.WithFacility | src/main/java/com/example/hotelbookingv2/model/Room.java:55-58 | the room's list only grows, by one facility at most; it grows iff no facility with the id was listed, and then by `f` at the end; afterwards a facility with the id is listed |
| Entities.WithRoom | src/main/java/com/example/hotelbookingv2/model/Room.java:55-59 | the facility's room list grows by the room at the end exactly when the room's list grows, and is unchanged otherwise |
| Entities.WithoutFacility | src/main/java/com/example/hotelbookingv2/model/Room.java:63 | drops exactly the first facility with the id, keeping the others in order, or nothing if none has it |
| Entities.Without | src/main/java/com/example/hotelbookingv2/model/Room.java:64 | drops exactly the first occurrence of the room, keeping the others in order, or nothing if it is absent |
| Entities.Room.AddFacility | src/main/java/com/example/hotelbookingv2/model/Room.java:55-60 | when no facility with that id is listed, both sides are linked; otherwise nothing changes; only the two lists change, so the facility keeps its name; the two sides stay in step |
| Entities.Room.RemoveFacility | src/main/java/com/example/hotelbookingv2/model/Room.java:62-65 | drops the first facility with that id and the room from the facility's list; only the two lists change; the two sides stay in step when the ids are distinct |
| Entities.WithFacilityIdempotent | src/main/java/com/example/hotelbookingv2/model/Room.java:55-60 | adding the same facility twice is the same as adding it once, on the room's list and on the facility's, and the facility is then listed |
| Entities.WithFacilityKeepsIdsUnique | src/main/java/com/example/hotelbookingv2/model/Room.java:56 | the contains check keeps the facility ids of a room distinct |
| Entities.RemoveUndoesAdd | src/main/java/com/example/hotelbookingv2/model/Room.java:55-65 | removing a facility just added restores the room's list |
| Entities.RemoveUndoesAddRoom | src/main/java/com/example/hotelbookingv2/model/Room.java:55-65 | removing a room just linked restores the facility's list |
| Entities.WithoutFacilityRemovesId | src/main/java/com/example/hotelbookingv2/model/Room.java:62-63 | with distinct ids, no facility with the id remains after the removal, and the ids stay distinct |
| Entities.AddKeepsLink | src/main/java/com/example/hotelbookingv2/model/Room.java:55-60 | the room lists the facility as often as the facility lists the room, before and after the add |
| Entities.RemoveKeepsLink | src/main/java/com/example/hotelbookingv2/model/Room.java:62-65 | the same balance survives the removal, given distinct facility ids |

## Left out

- HTTP controllers, `LogService`, `FacilityService`, the mappers, DTOs and the logging aspect are not part of this model. Nor are `RoomServiceImpl` and `HotelServiceImpl`, which are alternative service implementations. The log lines the cache writes are left out.
- Cache.LfuCacheBase.constructor: asks for a positive capacity. The source accepts any `int`, but with capacity 0 or less no bound can hold.
- Counters are unbounded naturals, so the `int` overflow and the `Integer.MAX_VALUE` start of the scan are not modelled. In the source, a counter at `Integer.MAX_VALUE` wraps to `Integer.MIN_VALUE` on the next use. The scan then picks that entry first, so the most-used key is the one evicted. An entry at exactly `Integer.MAX_VALUE` is never picked, because the scan's test is a strict `<`. If every entry sits there, no key is found, nothing is evicted, the new entry is still inserted, and the cache grows past its capacity.
- The order of `HashMap` iteration is not modelled. The eviction victim is any least-frequent key, which covers every order.
- Prices are `real` rather than `double`. The comparison `price < 0.1` is taken exactly, without binary rounding.
- Some values are never null in the model: the id arguments of `getHotelById`, `deleteHotel`, `updateHotel` and `getRoomById`; the `Hotel` argument of `saveHotel` and `updateHotel`; the id of every stored row; and facility names. For these Java would throw a `NullPointerException` or `IllegalArgumentException`, a path the model does not cover. Everything else that may be null is an `Option`: hotel names, cities, categories and dates, the room fields, the ids of `findRoomsByHotel`, `deleteRoom` and `updateRoom`, the facility name of `findRoomsByFacility`, `Room` arguments and lists. Null elements of a bulk list are not modelled.
- Random UUID generation for new rows is left out. A saved row keeps the id it carries.
- Tables are sequences with a unique key. The ordering and paging of real queries, transactions and their rollback, and concurrent callers are left out.
- Rooms.RoomService.GetRoomById: for hits only, the store's answer is promised only while `Coherent()` holds; a miss always returns the stored room. Coherence is a property which every method of this service keeps. The source shares the `RoomCache` bean with `RoomServiceImpl`, and hotel and facility updates can change rooms' relations without touching the cache; after such a write a hit serves the cached room, in the model as in the source.
- Hotels.HotelService.GetHotelById: the store's answer is promised only while `Coherent()` holds. `Hotel.rooms` is the inverse side of `Room.hotel` (`Hotel.java:40`, `mappedBy`). So `saveRoom`, `deleteRoom` and `saveRoomsBulk` in `RoomService`, and `HotelServiceImpl`, change a stored hotel without touching `HotelCache`. A hit then serves the stale copy, in the model as in the source (`StaleHitServesCachedCopy`). The model does not link the room table to the hotels' room lists.
- Rooms.RoomService.SaveRoom: a room's hotel id is not checked against the hotel table. The source's join column (`Room.java:41-44`, `nullable = false`) is a foreign key, and the database would reject a room whose hotel does not exist. Here `SaveRoom` and `SaveRoomsBulk` accept any non-null hotel id.
- Hotels.HotelService.UpdateHotel: a stored hotel with no room list (`rooms == None`) makes a non-empty update fail with `NullPointer`, as `getRooms().clear()` would. In the source that cannot happen for a loaded hotel, because `Hotel.java:42` starts every hotel with an empty list. In the model it arises only after `SaveHotel` stored a hotel whose list was null.
- Hotels.HotelService.GetHotels: cached filter results are not tied to the table. The source never invalidates them, so they may be stale.
- Entities.Room.RemoveFacility: keeps both sides in step only for the facility passed. If the removed list element is a different object with the same id, its room list is left unchanged, in the source as in the model, so that link becomes one-sided.
- The `Room` and `Facility` setters and the JPA cascade and lazy-loading behaviour are left out.
