/** The three caches the application wires up: `LfuCache<T>` and
    `LfuCacheList<T>` only fix the value type of `LfuCacheBase`, and each
    named cache fixes the capacity. */
module CacheInstances {
  import opened Cache
  import opened Records

  /** `LfuCache<T>`: one value per key. */
  type LfuCache<T> = LfuCacheBase<T>

  /** `LfuCacheList<T>`: a list of values per key, handled as one value. */
  type LfuCacheList<T> = LfuCacheBase<seq<T>>

  type RoomCache = LfuCache<RoomRecord>
  type HotelCache = LfuCacheList<HotelRecord>
  type FacilityCache = LfuCacheList<FacilityRecord>

  const RoomCacheCapacity: nat := 3
  const HotelCacheCapacity: nat := 3
  const FacilityCacheCapacity: nat := 6

  /** `new RoomCache()`. */
  method NewRoomCache() returns (c: RoomCache)
    ensures fresh(c) && c.Valid()
    ensures c.capacity == RoomCacheCapacity && c.entries == map[]
  {
    c := new LfuCacheBase<RoomRecord>(RoomCacheCapacity);
  }

  /** `new HotelCache()`. */
  method NewHotelCache() returns (c: HotelCache)
    ensures fresh(c) && c.Valid()
    ensures c.capacity == HotelCacheCapacity && c.entries == map[]
  {
    c := new LfuCacheBase<seq<HotelRecord>>(HotelCacheCapacity);
  }

  /** `new FacilityCache()`. */
  method NewFacilityCache() returns (c: FacilityCache)
    ensures fresh(c) && c.Valid()
    ensures c.capacity == FacilityCacheCapacity && c.entries == map[]
  {
    c := new LfuCacheBase<seq<FacilityRecord>>(FacilityCacheCapacity);
  }
}
