/** `HotelService`: hotel lookups read through the hotel cache, and writes go
    through to it. Filter queries and hotel ids share one key space. */
module Hotels {
  import opened Common
  import opened Cache
  import opened CacheProperties
  import opened CacheInstances
  import opened Records
  import opened Tables

  /** Java's string concatenation of a possibly null `String`. */
  function Render(s: Option<string>): string {
    if s.None? then "null" else s.value
  }

  /** `generateCacheKey(city, category)`: `city + ":" + category`. The key
      splits, at the position just after the rendered city, into the city,
      the separator and the category. */
  function GenerateCacheKey(city: Option<string>, category: Option<string>): (key: string)
    ensures |key| == |Render(city)| + 1 + |Render(category)|
    ensures key[..|Render(city)|] == Render(city) && key[|Render(city)|] == ':'
    ensures key[|Render(city)| + 1..] == Render(category)
  {
    Render(city) + ":" + Render(category)
  }

  /** A filter key always holds the separator, so it never equals an id that
      does not. */
  lemma FilterKeyHasSeparator(city: Option<string>, category: Option<string>)
    ensures ':' in GenerateCacheKey(city, category)
  {
    var key := GenerateCacheKey(city, category);
    assert key[|Render(city)|] == ':';
  }

  /** In `a + ":" + b` with no separator in `a`, the first separator is the
      one just after `a`. */
  lemma SeparatorPosition(a: string, b: string)
    requires ':' !in a
    ensures (a + ":" + b)[|a|] == ':'
    ensures forall i :: 0 <= i < |a| ==> (a + ":" + b)[i] != ':'
  {
    forall i | 0 <= i < |a| ensures (a + ":" + b)[i] != ':' {
      assert (a + ":" + b)[i] == a[i];
    }
  }

  /** Two filter keys are equal exactly when both rendered filters are,
      provided the city holds no separator. */
  lemma CacheKeyInjective(city1: Option<string>, category1: Option<string>,
                          city2: Option<string>, category2: Option<string>)
    requires ':' !in Render(city1) && ':' !in Render(city2)
    ensures GenerateCacheKey(city1, category1) == GenerateCacheKey(city2, category2)
        <==> Render(city1) == Render(city2) && Render(category1) == Render(category2)
  {
    var a1, a2 := Render(city1), Render(city2);
    var key1, key2 := GenerateCacheKey(city1, category1), GenerateCacheKey(city2, category2);
    if key1 == key2 {
      SeparatorPosition(a1, Render(category1));
      SeparatorPosition(a2, Render(category2));
      assert |a1| == |a2|;
      assert a1 == key1[..|a1|] && a2 == key2[..|a2|];
      assert Render(category1) == key1[|a1| + 1..] && Render(category2) == key2[|a2| + 1..];
    }
  }

  /** The literal city "null" and a missing city share a key, although they
      select different hotels. */
  lemma NullCitySharesKey(category: Option<string>)
    ensures GenerateCacheKey(Some("null"), category) == GenerateCacheKey(None, category)
  {
  }

  /** Whether a hotel passes the filters, a missing filter selecting all. */
  predicate MatchesFilters(h: HotelRecord, city: Option<string>, category: Option<string>) {
    (city.Some? ==> h.city == city) && (category.Some? ==> h.category == category)
  }

  /** The repository query `getHotels` picks on a miss: by city and category,
      by city, by category, or all hotels. Each returns exactly the hotels
      matching the given filters. */
  function FindHotels(rows: seq<HotelRecord>, city: Option<string>, category: Option<string>): (r: seq<HotelRecord>)
    ensures forall i :: 0 <= i < |r| ==> r[i] in rows && MatchesFilters(r[i], city, category)
    ensures forall i :: 0 <= i < |rows| && MatchesFilters(rows[i], city, category) ==> rows[i] in r
  {
    if city.Some? && category.Some? then
      Filter(rows, (h: HotelRecord) => h.city == city && h.category == category)   // findByCityAndCategory
    else if city.Some? then
      Filter(rows, (h: HotelRecord) => h.city == city)                             // findByCity
    else if category.Some? then
      Filter(rows, (h: HotelRecord) => h.category == category)                     // findByCategory
    else
      rows                                                                         // findAll
  }

  /** `findById(id).orElseThrow(...)`. */
  function LoadHotel(rows: seq<HotelRecord>, id: string): Result<HotelRecord> {
    match FindById(rows, HotelId, id)
    case Some(h) => Ok(h)
    case None => Err(NotFound)
  }

  /** Under a key without the separator (a hotel id) the cache holds the
      one-element list of the stored hotel with that id. Filter keys are
      not constrained: their lists may be stale. */
  ghost predicate IdKeysCoherent(entries: map<string, Entry<seq<HotelRecord>>>, rows: seq<HotelRecord>) {
    forall k :: k in entries && ':' !in k ==>
      |entries[k].value| == 1 && FindById(rows, HotelId, k) == Some(entries[k].value[0])
  }

  /** The hotel an update leaves in the store: name, city, category and
      date copied, rooms replaced only by a non-empty list. */
  function MergedHotel(existing: HotelRecord, updated: HotelRecord): HotelRecord {
    existing.(name := updated.name, city := updated.city, category := updated.category,
              availableFromDate := updated.availableFromDate,
              rooms := if RoomsSupplied(updated) then updated.rooms else existing.rooms)
  }

  predicate RoomsSupplied(updated: HotelRecord) {
    updated.rooms.Some? && updated.rooms.value != []
  }

  /** What `updateHotel` promises about the merged hotel: the id is kept; the
      name, city, category and date are the supplied ones; the room list is
      the supplied one when it is non-empty and the stored one otherwise.
      Merging the result again changes nothing. */
  lemma MergedHotelProperties(existing: HotelRecord, updated: HotelRecord)
    ensures var m := MergedHotel(existing, updated);
      m.id == existing.id && m.name == updated.name && m.city == updated.city
      && m.category == updated.category && m.availableFromDate == updated.availableFromDate
      && (RoomsSupplied(updated) ==> m.rooms == updated.rooms)
      && (!RoomsSupplied(updated) ==> m.rooms == existing.rooms)
      && MergedHotel(m, updated) == m
  {
  }

  /** A key written by a call that preserves coherence everywhere else. */
  lemma PutKeepsCoherent(before: map<string, Entry<seq<HotelRecord>>>, after: map<string, Entry<seq<HotelRecord>>>,
                         capacity: nat, id: string, value: seq<HotelRecord>, rows: seq<HotelRecord>)
    requires PutOutcome(before, after, capacity, id, value)
    requires forall k :: k in before && ':' !in k && k != id ==>
      |before[k].value| == 1 && FindById(rows, HotelId, k) == Some(before[k].value[0])
    requires ':' !in id ==> |value| == 1 && FindById(rows, HotelId, id) == Some(value[0])
    ensures IdKeysCoherent(after, rows)
  {
    PutFrame(before, after, capacity, id, value);
    PutStoresValue(before, after, capacity, id, value);
    forall k | k in after && ':' !in k
      ensures |after[k].value| == 1 && FindById(rows, HotelId, k) == Some(after[k].value[0])
    {
      if k != id {
        assert after[k] == before[k];
      }
    }
  }

  /** The answer of `getHotelById(id)` for the cache entries and the table
      it finds: the head of a non-empty cached list, else the stored hotel. */
  function HotelByIdAnswer(entries: map<string, Entry<seq<HotelRecord>>>, rows: seq<HotelRecord>, id: string): Result<HotelRecord> {
    if id in entries && entries[id].value != [] then Ok(entries[id].value[0]) else LoadHotel(rows, id)
  }

  /** While the cache is coherent, the answer for a hotel id is the store's,
      whether it comes from the cache or from the table. */
  lemma CoherentAnswerIsStored(entries: map<string, Entry<seq<HotelRecord>>>, rows: seq<HotelRecord>, id: string)
    requires IdKeysCoherent(entries, rows) && ':' !in id
    ensures HotelByIdAnswer(entries, rows, id) == LoadHotel(rows, id)
  {
    if id in entries {
      assert |entries[id].value| == 1 && FindById(rows, HotelId, id) == Some(entries[id].value[0]);
    }
  }

  /** When the stored hotel changed behind the cache's back (here, its room
      list grew through a room written by another service), a hit serves the
      cached copy, not the stored one. */
  lemma StaleHitServesCachedCopy(cached: HotelRecord, room: string)
    requires cached.rooms.Some?
    ensures var stored := cached.(rooms := Some(cached.rooms.value + [room]));
      var entries := map[cached.id := Entry([cached], 1)];
      HotelByIdAnswer(entries, [stored], cached.id) == Ok(cached)
      && LoadHotel([stored], cached.id) == Ok(stored) && stored != cached
  {
    var stored := cached.(rooms := Some(cached.rooms.value + [room]));
    assert |stored.rooms.value| != |cached.rooms.value|;
  }

  class HotelService {
    /** The hotel table behind `HotelRepository`. */
    var hotels: seq<HotelRecord>
    const cache: HotelCache

    /** What the store and the cache guarantee by themselves: the cache's
        bound and a primary key on the table. */
    ghost predicate Valid()
      reads this, cache
    {
      cache.Valid() && UniqueKeys(hotels, HotelId)
    }

    /** The cache agrees with the table under every hotel id. Every method
        of this service preserves it; writes that reach the hotel table
        without going through this service (room changes that alter a
        hotel's room list, other services) can break it. */
    ghost predicate Coherent()
      reads this, cache
    {
      IdKeysCoherent(cache.entries, hotels)
    }

    constructor (hotels: seq<HotelRecord>, cache: HotelCache)
      requires cache.Valid() && UniqueKeys(hotels, HotelId)
      ensures Valid()
      ensures IdKeysCoherent(cache.entries, hotels) ==> Coherent()
      ensures this.hotels == hotels && this.cache == cache
    {
      this.hotels := hotels;
      this.cache := cache;
    }

    /** `getHotels(city, category)`: a cached list is returned as it is,
        without a query; on a miss the query chosen by the filters is run,
        its result stored under the same key and returned. */
    method GetHotels(city: Option<string>, category: Option<string>) returns (r: seq<HotelRecord>)
      requires Valid()
      modifies cache
      ensures Valid()
      ensures old(Coherent()) ==> Coherent()
      ensures var key := GenerateCacheKey(city, category);
        if key in old(cache.entries) then
          r == old(cache.entries)[key].value && cache.entries == Touched(old(cache.entries), key)
        else
          r == FindHotels(hotels, city, category)
          && PutOutcome(old(cache.entries), cache.entries, cache.capacity, key, r)
    {
      var cacheKey := GenerateCacheKey(city, category);
      var cachedHotels := cache.Get(cacheKey);
      if cachedHotels.Some? {
        return cachedHotels.value;
      }
      r := FindHotels(hotels, city, category);
      FilterKeyHasSeparator(city, category);
      ghost var before := cache.entries;
      ghost var wasCoherent := Coherent();
      cache.Put(cacheKey, r);
      if wasCoherent {
        PutKeepsCoherent(before, cache.entries, cache.capacity, cacheKey, r, hotels);
      }
    }

    /** `getHotelById(id)`: the first hotel of a non-empty cached list under
        the id, however stale; otherwise the stored hotel, or not-found. The
        cache is only read. While the cache is coherent, the answer for an
        id without the separator is the store's. */
    method GetHotelById(id: string) returns (r: Result<HotelRecord>)
      requires Valid()
      modifies cache
      ensures Valid()
      ensures old(Coherent()) ==> Coherent()
      ensures cache.entries == if id in old(cache.entries) then Touched(old(cache.entries), id) else old(cache.entries)
      ensures r == HotelByIdAnswer(old(cache.entries), hotels, id)
      ensures old(Coherent()) && ':' !in id ==> r == LoadHotel(hotels, id)
    {
      ghost var before := cache.entries;
      if Coherent() && ':' !in id {
        CoherentAnswerIsStored(before, hotels, id);
      }
      var cachedHotels := cache.Get(id);
      if cachedHotels.Some? && cachedHotels.value != [] {
        return Ok(cachedHotels.value[0]);
      }
      r := LoadHotel(hotels, id);
    }

    /** `saveHotel(hotel)`: a null or blank name is rejected before anything
        happens; otherwise the hotel is saved and the one-element list of it
        is put under its id. */
    method SaveHotel(hotel: HotelRecord) returns (r: Result<HotelRecord>)
      requires Valid()
      modifies this, cache
      ensures Valid()
      ensures old(Coherent()) ==> Coherent()
      ensures NullOrBlank(hotel.name) ==>
        r == Err(InvalidInput(HotelNameBlank)) && hotels == old(hotels) && cache.entries == old(cache.entries)
      ensures !NullOrBlank(hotel.name) ==>
        r == Ok(hotel) && hotels == Saved(old(hotels), HotelId, hotel)
        && PutOutcome(old(cache.entries), cache.entries, cache.capacity, hotel.id, [hotel])
    {
      if NullOrBlank(hotel.name) {
        return Err(InvalidInput(HotelNameBlank));
      }
      SavedFind(hotels, HotelId, hotel);
      SavedUnique(hotels, HotelId, hotel);
      ghost var wasCoherent := Coherent();
      hotels := Saved(hotels, HotelId, hotel);
      ghost var before := cache.entries;
      cache.Put(hotel.id, [hotel]);
      if wasCoherent {
        PutKeepsCoherent(before, cache.entries, cache.capacity, hotel.id, [hotel], hotels);
      }
      r := Ok(hotel);
    }

    /** `deleteHotel(id)`: not-found for an unknown id; otherwise the hotel is
        deleted and that id alone leaves the cache. */
    method DeleteHotel(id: string) returns (r: Result<()>)
      requires Valid()
      modifies this, cache
      ensures Valid()
      ensures old(Coherent()) ==> Coherent()
      ensures !ExistsById(old(hotels), HotelId, id) ==>
        r == Err(NotFound) && hotels == old(hotels) && cache.entries == old(cache.entries)
      ensures ExistsById(old(hotels), HotelId, id) ==>
        r == Ok(()) && hotels == Deleted(old(hotels), HotelId, id) && cache.entries == old(cache.entries) - {id}
    {
      if !ExistsById(hotels, HotelId, id) {
        return Err(NotFound);
      }
      DeletedFind(hotels, HotelId, id);
      hotels := Deleted(hotels, HotelId, id);
      cache.Remove(id);
      r := Ok(());
    }

    /** `updateHotel(id, updatedHotel)`: name, city and category are checked
        in that order before any lookup; an unknown id is not-found;
        otherwise the merged hotel is saved and its one-element list put
        under the id. Replacing the rooms of a stored hotel that has no room
        list fails as `getRooms().clear()` does. */
    method UpdateHotel(id: string, updated: HotelRecord) returns (r: Result<HotelRecord>)
      requires Valid()
      modifies this, cache
      ensures Valid()
      ensures old(Coherent()) ==> Coherent()
      ensures r.Err? ==> hotels == old(hotels) && cache.entries == old(cache.entries)
      ensures NullOrBlank(updated.name) ==> r == Err(InvalidInput(HotelNameBlank))
      ensures !NullOrBlank(updated.name) && NullOrBlank(updated.city) ==> r == Err(InvalidInput(CityBlank))
      ensures !NullOrBlank(updated.name) && !NullOrBlank(updated.city) && NullOrBlank(updated.category) ==>
        r == Err(InvalidInput(CategoryBlank))
      ensures !NullOrBlank(updated.name) && !NullOrBlank(updated.city) && !NullOrBlank(updated.category) ==>
        match FindById(old(hotels), HotelId, id)
        case None => r == Err(NotFound)
        case Some(existing) =>
          if RoomsSupplied(updated) && existing.rooms.None? then r == Err(NullPointer)
          else
            r == Ok(MergedHotel(existing, updated))
            && hotels == Saved(old(hotels), HotelId, r.value)
            && PutOutcome(old(cache.entries), cache.entries, cache.capacity, id, [r.value])
    {
      if NullOrBlank(updated.name) {
        return Err(InvalidInput(HotelNameBlank));
      }
      if NullOrBlank(updated.city) {
        return Err(InvalidInput(CityBlank));
      }
      if NullOrBlank(updated.category) {
        return Err(InvalidInput(CategoryBlank));
      }
      var found := FindById(hotels, HotelId, id);
      if found.None? {
        return Err(NotFound);
      }
      var existing := found.value;
      if RoomsSupplied(updated) && existing.rooms.None? {
        return Err(NullPointer);
      }
      var savedHotel := MergedHotel(existing, updated);
      SavedFind(hotels, HotelId, savedHotel);
      SavedUnique(hotels, HotelId, savedHotel);
      ghost var wasCoherent := Coherent();
      hotels := Saved(hotels, HotelId, savedHotel);
      ghost var before := cache.entries;
      cache.Put(id, [savedHotel]);
      if wasCoherent {
        PutKeepsCoherent(before, cache.entries, cache.capacity, id, [savedHotel], hotels);
      }
      r := Ok(savedHotel);
    }
  }
}
