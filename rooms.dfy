/** `RoomService`: room lookups read through the room cache, writes go
    through to it, and every request is validated first. */
module Rooms {
  import opened Common
  import opened Cache
  import opened CacheProperties
  import opened CacheInstances
  import opened Records
  import opened Tables

  // ----- repository queries -----

  /** `findRoomsByHotel`: the rooms whose hotel has the id. */
  function RoomsOfHotel(rows: seq<RoomRecord>, hotelId: string): (found: seq<RoomRecord>)
    ensures forall i :: 0 <= i < |found| ==> found[i] in rows && found[i].hotel == Some(hotelId)
    ensures forall i :: 0 <= i < |rows| && rows[i].hotel == Some(hotelId) ==> rows[i] in found
  {
    Filter(rows, (x: RoomRecord) => x.hotel == Some(hotelId))
  }

  /** The room is joined to a stored facility with the name. */
  predicate HasFacilityNamed(facilities: map<string, FacilityRecord>, x: RoomRecord, name: string) {
    x.facilities.Some? && exists fid :: fid in x.facilities.value && fid in facilities && facilities[fid].name == name
  }

  /** `findRoomsByFacility`: the rooms joined to a facility with the name. */
  function RoomsWithFacility(rows: seq<RoomRecord>, facilities: map<string, FacilityRecord>, name: string): (found: seq<RoomRecord>)
    ensures forall i :: 0 <= i < |found| ==> found[i] in rows && HasFacilityNamed(facilities, found[i], name)
    ensures forall i :: 0 <= i < |rows| && HasFacilityNamed(facilities, rows[i], name) ==> rows[i] in found
  {
    Filter(rows, (x: RoomRecord) => HasFacilityNamed(facilities, x, name))
  }

  /** `existsByRoomNumberAndHotelId`. */
  predicate NumberTaken(rows: seq<RoomRecord>, number: string, hotelId: string) {
    exists i :: 0 <= i < |rows| && rows[i].roomNumber == Some(number) && rows[i].hotel == Some(hotelId)
  }

  /** `facilityRepository.findAllById(ids)`: the ids that name stored
      facilities. */
  function FindAllById(facilities: map<string, FacilityRecord>, ids: set<string>): set<string> {
    set fid | fid in ids && fid in facilities
  }

  /** `findById(id).orElseThrow(...)`. */
  function LoadRoom(rows: seq<RoomRecord>, id: string): Result<RoomRecord> {
    match FindById(rows, RoomId, id)
    case Some(x) => Ok(x)
    case None => Err(NotFound)
  }

  // ----- validation -----

  /** `saveRoom`'s first guard: no null hotel, number, type or price. */
  predicate RoomFieldsPresent(x: RoomRecord) {
    x.hotel.Some? && x.roomNumber.Some? && x.roomType.Some? && x.price.Some?
  }

  /** `saveRoomsBulk`'s field rule for one room. */
  predicate RoomFieldsValid(x: RoomRecord) {
    !NullOrBlank(x.roomNumber) && x.roomType.Some? && x.price.Some? && PriceOk(x.price.value) && x.hotel.Some?
  }

  /** The room number of this room of a request is already used in its hotel. */
  predicate IsTaken(rows: seq<RoomRecord>, x: RoomRecord) {
    x.hotel.Some? && x.roomNumber.Some? && NumberTaken(rows, x.roomNumber.value, x.hotel.value)
  }

  /** No two rooms of the request carry the same number. */
  predicate DistinctNumbers(request: seq<RoomRecord>) {
    forall i, j :: 0 <= i < j < |request| ==> request[i].roomNumber != request[j].roomNumber
  }

  /** How often `x` occurs in `s` (`Collectors.counting()`). */
  function Count<X(==)>(s: seq<X>, x: X): nat {
    if s == [] then 0 else (if s[0] == x then 1 else 0) + Count(s[1..], x)
  }

  /** `rooms.stream().map(Room::getRoomNumber)`, when no number is null. */
  function RoomNumbers(request: seq<RoomRecord>): (numbers: seq<string>)
    requires forall i :: 0 <= i < |request| ==> request[i].roomNumber.Some?
    ensures |numbers| == |request|
    ensures forall i :: 0 <= i < |request| ==> numbers[i] == request[i].roomNumber.value
  {
    if request == [] then [] else [request[0].roomNumber.value] + RoomNumbers(request[1..])
  }

  /** `groupingBy(number, counting())` filtered to counts above one. */
  function DuplicatedNumbers(numbers: seq<string>): set<string> {
    set n | n in numbers && Count(numbers, n) > 1
  }

  lemma {:induction false} CountZero<X>(s: seq<X>, x: X)
    requires x !in s
    ensures Count(s, x) == 0
  {
    if s != [] {
      CountZero(s[1..], x);
    }
  }

  lemma {:induction false} CountPositive<X>(s: seq<X>, i: nat)
    requires i < |s|
    ensures Count(s, s[i]) >= 1
  {
    if i > 0 {
      CountPositive(s[1..], i - 1);
    }
  }

  /** A value at two positions is counted at least twice. */
  lemma {:induction false} CountRepeated<X>(s: seq<X>, i: nat, j: nat)
    requires i < j < |s| && s[i] == s[j]
    ensures Count(s, s[i]) >= 2
  {
    if i == 0 {
      CountPositive(s[1..], j - 1);
    } else {
      CountRepeated(s[1..], i - 1, j - 1);
    }
  }

  /** In a sequence without repeats nothing is counted twice. */
  lemma {:induction false} CountDistinct<X>(s: seq<X>, x: X)
    requires forall i, j :: 0 <= i < j < |s| ==> s[i] != s[j]
    ensures Count(s, x) <= 1
  {
    if s != [] {
      if s[0] == x {
        CountZero(s[1..], x);
      } else {
        CountDistinct(s[1..], x);
      }
    }
  }

  /** The duplicate list is empty exactly when all numbers differ. */
  lemma NoDuplicatesIffDistinct(numbers: seq<string>)
    ensures DuplicatedNumbers(numbers) == {} <==> forall i, j :: 0 <= i < j < |numbers| ==> numbers[i] != numbers[j]
  {
    if forall i, j :: 0 <= i < j < |numbers| ==> numbers[i] != numbers[j] {
      forall n | n in numbers ensures Count(numbers, n) <= 1 {
        CountDistinct(numbers, n);
      }
    } else {
      var i, j :| 0 <= i < j < |numbers| && numbers[i] == numbers[j];
      CountRepeated(numbers, i, j);
      assert numbers[i] in DuplicatedNumbers(numbers);
    }
  }

  /** The `existingRoomNumbers` pipeline: numbers of the rooms (with a hotel
      and a number) whose number is already used in their hotel. */
  function TakenNumbers(rows: seq<RoomRecord>, request: seq<RoomRecord>): (taken: seq<string>)
    ensures taken == [] <==> forall i :: 0 <= i < |request| ==> !IsTaken(rows, request[i])
    ensures forall n :: n in taken ==> exists i :: 0 <= i < |request| && IsTaken(rows, request[i]) && request[i].roomNumber == Some(n)
  {
    if request == [] then []
    else
      var rest := TakenNumbers(rows, request[1..]);
      assert forall i :: 1 <= i < |request| ==> request[i] == request[1..][i - 1];
      if IsTaken(rows, request[0]) then [request[0].roomNumber.value] + rest else rest
  }

  /** The `invalidRooms` pipeline: the numbers of the rooms that break a
      field rule. */
  function InvalidRoomNumbers(request: seq<RoomRecord>): (invalid: seq<Option<string>>)
    ensures |invalid| <= |request|
    ensures invalid == [] <==> forall i :: 0 <= i < |request| ==> RoomFieldsValid(request[i])
  {
    if request == [] then []
    else
      var rest := InvalidRoomNumbers(request[1..]);
      assert forall i :: 1 <= i < |request| ==> request[i] == request[1..][i - 1];
      if RoomFieldsValid(request[0]) then rest else [request[0].roomNumber] + rest
  }

  /** The checks of `saveRoomsBulk`, in their fixed order, on a non-null
      list: empty list, then a null number (the grouping collector throws),
      duplicate numbers, numbers already used, invalid fields. */
  function BulkRejection(rows: seq<RoomRecord>, request: seq<RoomRecord>): (e: Option<Error>)
    ensures request == [] ==> e == Some(InvalidInput(RoomListEmpty))
    ensures request != [] && (exists i :: 0 <= i < |request| && request[i].roomNumber.None?) ==>
      e == Some(NullPointer)
    ensures request != [] && (forall i :: 0 <= i < |request| ==> request[i].roomNumber.Some?) ==>
      (!DistinctNumbers(request) ==> e == Some(InvalidInput(RoomNumbersDuplicated)))
      && (DistinctNumbers(request) && (exists i :: 0 <= i < |request| && IsTaken(rows, request[i])) ==>
            e == Some(AlreadyExists))
      && (DistinctNumbers(request) && (forall i :: 0 <= i < |request| ==> !IsTaken(rows, request[i]))
          && (exists i :: 0 <= i < |request| && !RoomFieldsValid(request[i])) ==>
            e == Some(InvalidInput(RoomDataInvalid)))
    ensures e == None <==>
      request != [] && DistinctNumbers(request)
      && (forall i :: 0 <= i < |request| ==> !IsTaken(rows, request[i]) && RoomFieldsValid(request[i]))
  {
    if request == [] then Some(InvalidInput(RoomListEmpty))
    else if exists i :: 0 <= i < |request| && request[i].roomNumber.None? then Some(NullPointer)
    else
      var numbers := RoomNumbers(request);
      NoDuplicatesIffDistinct(numbers);
      if DuplicatedNumbers(numbers) != {} then Some(InvalidInput(RoomNumbersDuplicated))
      else if TakenNumbers(rows, request) != [] then Some(AlreadyExists)
      else if InvalidRoomNumbers(request) != [] then Some(InvalidInput(RoomDataInvalid))
      else None
  }

  // ----- cache coherence -----

  /** Every cached room is the stored room with the same id. */
  ghost predicate RoomsCoherent(entries: map<string, Entry<RoomRecord>>, rows: seq<RoomRecord>) {
    forall k :: k in entries ==> FindById(rows, RoomId, k) == Some(entries[k].value)
  }

  /** A `put` of the stored room under its id keeps the cache coherent with
      a table that agrees on the other cached keys. */
  lemma PutKeepsRoomsCoherent(before: map<string, Entry<RoomRecord>>, after: map<string, Entry<RoomRecord>>,
                              capacity: nat, id: string, value: RoomRecord, rows: seq<RoomRecord>)
    requires PutOutcome(before, after, capacity, id, value)
    requires forall k :: k in before && k != id ==> FindById(rows, RoomId, k) == Some(before[k].value)
    requires FindById(rows, RoomId, id) == Some(value)
    ensures RoomsCoherent(after, rows)
  {
    PutFrame(before, after, capacity, id, value);
    PutStoresValue(before, after, capacity, id, value);
  }

  /** One step of the bulk put: with the first `i` rooms saved and cached,
      putting room `i` keeps the cache coherent with the first `i + 1` saved. */
  lemma BulkPutKeepsCoherent(before: map<string, Entry<RoomRecord>>, after: map<string, Entry<RoomRecord>>,
                             capacity: nat, base: seq<RoomRecord>, saved: seq<RoomRecord>, i: nat)
    requires i < |saved|
    requires RoomsCoherent(before, SavedAll(base, RoomId, saved[..i]))
    requires PutOutcome(before, after, capacity, saved[i].id, saved[i])
    ensures RoomsCoherent(after, SavedAll(base, RoomId, saved[..i + 1]))
  {
    var done := SavedAll(base, RoomId, saved[..i]);
    assert saved[..i + 1] == saved[..i] + [saved[i]];
    SavedAllSnoc(base, RoomId, saved[..i], saved[i]);
    SavedFind(done, RoomId, saved[i]);
    PutKeepsRoomsCoherent(before, after, capacity, saved[i].id, saved[i], Saved(done, RoomId, saved[i]));
  }

  /** The room an update leaves in the store: number, type and price copied,
      facilities replaced by the stored ones among those supplied, if any
      were supplied. */
  function MergedRoom(existing: RoomRecord, updated: RoomRecord, facilities: map<string, FacilityRecord>): RoomRecord {
    existing.(roomNumber := updated.roomNumber, roomType := updated.roomType, price := updated.price,
              facilities := if updated.facilities.Some? then Some(FindAllById(facilities, updated.facilities.value))
                            else existing.facilities)
  }

  /** What `updateRoom` promises about the merged room: the id and the hotel
      are kept; number, type and price are the supplied ones; supplied
      facilities are replaced by exactly those of them that are stored (so
      every facility of the room is a stored one), and otherwise the room
      keeps its own. Merging the result again changes nothing. */
  lemma MergedRoomProperties(existing: RoomRecord, updated: RoomRecord, facilities: map<string, FacilityRecord>)
    ensures var m := MergedRoom(existing, updated, facilities);
      m.id == existing.id && m.hotel == existing.hotel
      && m.roomNumber == updated.roomNumber && m.roomType == updated.roomType && m.price == updated.price
      && (updated.facilities.None? ==> m.facilities == existing.facilities)
      && (updated.facilities.Some? ==>
            m.facilities.Some? && m.facilities.value <= facilities.Keys
            && m.facilities.value <= updated.facilities.value
            && forall fid :: fid in updated.facilities.value && fid in facilities ==> fid in m.facilities.value)
      && MergedRoom(m, updated, facilities) == m
  {
  }

  class RoomService {
    /** The room table behind `RoomRepository`. */
    var rooms: seq<RoomRecord>
    /** The facility table behind `FacilityRepository`, read only here. */
    const facilities: map<string, FacilityRecord>
    const cache: RoomCache

    /** What the store and the cache guarantee by themselves: the cache's
        bound and a primary key on the table. */
    ghost predicate Valid()
      reads this, cache
    {
      cache.Valid() && UniqueKeys(rooms, RoomId)
    }

    /** Every cached room is the stored room. Every method of this service
        preserves it; writers that bypass this service (another service on
        the same cache bean, changes to a room's relations made elsewhere)
        can break it. */
    ghost predicate Coherent()
      reads this, cache
    {
      RoomsCoherent(cache.entries, rooms)
    }

    constructor (rooms: seq<RoomRecord>, facilities: map<string, FacilityRecord>, cache: RoomCache)
      requires cache.Valid() && UniqueKeys(rooms, RoomId)
      ensures Valid()
      ensures RoomsCoherent(cache.entries, rooms) ==> Coherent()
      ensures this.rooms == rooms && this.facilities == facilities && this.cache == cache
    {
      this.rooms := rooms;
      this.facilities := facilities;
      this.cache := cache;
    }

    /** `findRoomsByHotel(hotelId)`: a null or blank id is invalid input; a
        hotel without rooms is not-found; otherwise exactly its rooms. */
    method FindRoomsByHotel(hotelId: Option<string>) returns (r: Result<seq<RoomRecord>>)
      ensures NullOrBlank(hotelId) <==> r == Err(InvalidInput(HotelIdBlank))
      ensures r == Err(NotFound) <==> (!NullOrBlank(hotelId) && forall i :: 0 <= i < |rooms| ==> rooms[i].hotel != hotelId)
      ensures r.Err? ==> r == Err(InvalidInput(HotelIdBlank)) || r == Err(NotFound)
      ensures !NullOrBlank(hotelId) && (exists i :: 0 <= i < |rooms| && rooms[i].hotel == hotelId) ==> r.Ok?
      ensures r.Ok? ==> (r.value != []
        && (forall i :: 0 <= i < |r.value| ==> r.value[i] in rooms && r.value[i].hotel == hotelId)
        && (forall i :: 0 <= i < |rooms| && rooms[i].hotel == hotelId ==> rooms[i] in r.value))
    {
      if NullOrBlank(hotelId) {
        return Err(InvalidInput(HotelIdBlank));
      }
      var found := RoomsOfHotel(rooms, hotelId.value);
      if found == [] {
        return Err(NotFound);
      }
      assert found[0] in rooms;
      r := Ok(found);
    }

    /** `findRoomsByFacility(facilityName)`: a null or blank name is invalid
        input; no room with such a facility is not-found; otherwise exactly
        those rooms. */
    method FindRoomsByFacility(facilityName: Option<string>) returns (r: Result<seq<RoomRecord>>)
      ensures NullOrBlank(facilityName) <==> r == Err(InvalidInput(FacilityNameBlank))
      ensures r == Err(NotFound) <==> (!NullOrBlank(facilityName)
        && forall i :: 0 <= i < |rooms| ==> !HasFacilityNamed(facilities, rooms[i], facilityName.value))
      ensures r.Err? ==> r == Err(InvalidInput(FacilityNameBlank)) || r == Err(NotFound)
      ensures !NullOrBlank(facilityName)
              && (exists i :: 0 <= i < |rooms| && HasFacilityNamed(facilities, rooms[i], facilityName.value)) ==>
        r.Ok?
      ensures r.Ok? ==> (r.value != []
        && (forall i :: 0 <= i < |r.value| ==> r.value[i] in rooms && HasFacilityNamed(facilities, r.value[i], facilityName.value))
        && (forall i :: 0 <= i < |rooms| && HasFacilityNamed(facilities, rooms[i], facilityName.value) ==> rooms[i] in r.value))
    {
      if NullOrBlank(facilityName) {
        return Err(InvalidInput(FacilityNameBlank));
      }
      var found := RoomsWithFacility(rooms, facilities, facilityName.value);
      if found == [] {
        return Err(NotFound);
      }
      assert found[0] in rooms;
      r := Ok(found);
    }

    /** `getRoomById(id)`: a cached room is returned without a query, however
        stale; on a miss the stored room is put under the id and returned, and
        an unknown id is not-found with the cache untouched. While the cache
        is coherent the answer is the store's either way. */
    method GetRoomById(id: string) returns (r: Result<RoomRecord>)
      requires Valid()
      modifies cache
      ensures Valid()
      ensures old(Coherent()) ==> Coherent()
      ensures id in old(cache.entries) ==>
        r == Ok(old(cache.entries)[id].value) && cache.entries == Touched(old(cache.entries), id)
      ensures id !in old(cache.entries) && !ExistsById(rooms, RoomId, id) ==>
        r == Err(NotFound) && cache.entries == old(cache.entries)
      ensures id !in old(cache.entries) && ExistsById(rooms, RoomId, id) ==>
        r.Ok? && PutOutcome(old(cache.entries), cache.entries, cache.capacity, id, r.value)
      ensures id !in old(cache.entries) ==> r == LoadRoom(rooms, id)
      ensures old(Coherent()) ==> r == LoadRoom(rooms, id)
    {
      ghost var wasCoherent := Coherent();
      var room := cache.Get(id);
      if room.Some? {
        return Ok(room.value);
      }
      r := LoadRoom(rooms, id);
      if r.Err? {
        return;
      }
      ghost var before := cache.entries;
      cache.Put(id, r.value);
      if wasCoherent {
        PutKeepsRoomsCoherent(before, cache.entries, cache.capacity, id, r.value, rooms);
      }
    }

    /** `saveRoom(room)`: null fields, a price below the minimum and a number
        already used in the hotel are rejected in that order, touching
        nothing; otherwise the room is saved and put under its id. */
    method SaveRoom(room: Option<RoomRecord>) returns (r: Result<RoomRecord>)
      requires Valid()
      modifies this, cache
      ensures Valid()
      ensures old(Coherent()) ==> Coherent()
      ensures r.Err? ==> rooms == old(rooms) && cache.entries == old(cache.entries)
      ensures room.None? || !RoomFieldsPresent(room.value) ==> r == Err(InvalidInput(RoomDataMissing))
      ensures room.Some? && RoomFieldsPresent(room.value) && !PriceOk(room.value.price.value) ==>
        r == Err(InvalidInput(PriceTooLow))
      ensures room.Some? && RoomFieldsPresent(room.value) && PriceOk(room.value.price.value)
              && NumberTaken(old(rooms), room.value.roomNumber.value, room.value.hotel.value) ==>
        r == Err(InvalidInput(RoomNumberTaken))
      ensures room.Some? && RoomFieldsPresent(room.value) && PriceOk(room.value.price.value)
              && !NumberTaken(old(rooms), room.value.roomNumber.value, room.value.hotel.value) ==>
        r.Ok?
      ensures r.Ok? ==>
        room.Some? && r.value == room.value && RoomFieldsPresent(room.value) && PriceOk(room.value.price.value)
        && !NumberTaken(old(rooms), room.value.roomNumber.value, room.value.hotel.value)
        && rooms == Saved(old(rooms), RoomId, room.value)
        && PutOutcome(old(cache.entries), cache.entries, cache.capacity, room.value.id, room.value)
    {
      ghost var wasCoherent := Coherent();
      if room.None? || !RoomFieldsPresent(room.value) {
        return Err(InvalidInput(RoomDataMissing));
      }
      var x := room.value;
      if !PriceOk(x.price.value) {
        return Err(InvalidInput(PriceTooLow));
      }
      if NumberTaken(rooms, x.roomNumber.value, x.hotel.value) {
        return Err(InvalidInput(RoomNumberTaken));
      }
      SavedFind(rooms, RoomId, x);
      SavedUnique(rooms, RoomId, x);
      rooms := Saved(rooms, RoomId, x);
      ghost var before := cache.entries;
      cache.Put(x.id, x);
      if wasCoherent {
        PutKeepsRoomsCoherent(before, cache.entries, cache.capacity, x.id, x, rooms);
      }
      r := Ok(x);
    }

    /** `deleteRoom(id)`: a null or blank id is invalid input, an unknown id
        not-found; otherwise the room is deleted and exactly that id leaves
        the cache. */
    method DeleteRoom(id: Option<string>) returns (r: Result<()>)
      requires Valid()
      modifies this, cache
      ensures Valid()
      ensures old(Coherent()) ==> Coherent()
      ensures r.Err? ==> rooms == old(rooms) && cache.entries == old(cache.entries)
      ensures NullOrBlank(id) ==> r == Err(InvalidInput(RoomIdBlank))
      ensures !NullOrBlank(id) && !ExistsById(old(rooms), RoomId, id.value) ==> r == Err(NotFound)
      ensures !NullOrBlank(id) && ExistsById(old(rooms), RoomId, id.value) ==>
        r == Ok(()) && rooms == Deleted(old(rooms), RoomId, id.value)
        && cache.entries == old(cache.entries) - {id.value}
    {
      if NullOrBlank(id) {
        return Err(InvalidInput(RoomIdBlank));
      }
      if !ExistsById(rooms, RoomId, id.value) {
        return Err(NotFound);
      }
      DeletedFind(rooms, RoomId, id.value);
      rooms := Deleted(rooms, RoomId, id.value);
      cache.Remove(id.value);
      r := Ok(());
    }

    /** `updateRoom(id, updatedRoom)`: the arguments are checked first, then
        the room's existence, then the new number and price; on success the
        merged room is saved and put under its id. */
    method UpdateRoom(id: Option<string>, updated: Option<RoomRecord>) returns (r: Result<RoomRecord>)
      requires Valid()
      modifies this, cache
      ensures Valid()
      ensures old(Coherent()) ==> Coherent()
      ensures r.Err? ==> rooms == old(rooms) && cache.entries == old(cache.entries)
      ensures NullOrBlank(id) || updated.None? ==> r == Err(InvalidInput(UpdateArgumentsMissing))
      ensures !NullOrBlank(id) && updated.Some? ==>
        match FindById(old(rooms), RoomId, id.value)
        case None => r == Err(NotFound)
        case Some(existing) =>
          if NullOrBlank(updated.value.roomNumber) then r == Err(InvalidInput(RoomNumberBlank))
          else if updated.value.price.None? || !PriceOk(updated.value.price.value) then r == Err(InvalidInput(PriceTooLow))
          else
            r == Ok(MergedRoom(existing, updated.value, facilities)) && r.value.id == id.value
            && rooms == Saved(old(rooms), RoomId, r.value)
            && PutOutcome(old(cache.entries), cache.entries, cache.capacity, id.value, r.value)
    {
      ghost var wasCoherent := Coherent();
      if NullOrBlank(id) || updated.None? {
        return Err(InvalidInput(UpdateArgumentsMissing));
      }
      var found := FindById(rooms, RoomId, id.value);
      if found.None? {
        return Err(NotFound);
      }
      var u := updated.value;
      if NullOrBlank(u.roomNumber) {
        return Err(InvalidInput(RoomNumberBlank));
      }
      if u.price.None? || !PriceOk(u.price.value) {
        return Err(InvalidInput(PriceTooLow));
      }
      var merged := MergedRoom(found.value, u, facilities);
      SavedFind(rooms, RoomId, merged);
      SavedUnique(rooms, RoomId, merged);
      rooms := Saved(rooms, RoomId, merged);
      ghost var before := cache.entries;
      cache.Put(merged.id, merged);
      if wasCoherent {
        PutKeepsRoomsCoherent(before, cache.entries, cache.capacity, merged.id, merged, rooms);
      }
      r := Ok(merged);
    }

    /** `savedRooms.forEach(room -> roomCache.put(room.getId(), room))`, with
        the store already holding `SavedAll(base, saved)`: each step is a
        `put` (`trace` lists the cache states between them), and a cache
        coherent with `base` ends coherent with the store. */
    method CacheAll(saved: seq<RoomRecord>, ghost base: seq<RoomRecord>)
      returns (ghost trace: seq<map<string, Entry<RoomRecord>>>)
      requires cache.Valid()
      requires rooms == SavedAll(base, RoomId, saved)
      modifies cache
      ensures cache.Valid()
      ensures RoomsCoherent(old(cache.entries), base) ==> RoomsCoherent(cache.entries, rooms)
      ensures |trace| == |saved| + 1 && trace[0] == old(cache.entries) && trace[|saved|] == cache.entries
      ensures forall i :: 0 <= i < |saved| ==>
        PutOutcome(trace[i], trace[i + 1], cache.capacity, saved[i].id, saved[i])
    {
      trace := [cache.entries];
      assert saved[..0] == [];
      for i := 0 to |saved|
        invariant cache.Valid()
        invariant |trace| == i + 1 && trace[0] == old(cache.entries) && trace[i] == cache.entries
        invariant forall j :: 0 <= j < i ==>
          PutOutcome(trace[j], trace[j + 1], cache.capacity, saved[j].id, saved[j])
        invariant RoomsCoherent(trace[0], base) ==>
          RoomsCoherent(cache.entries, SavedAll(base, RoomId, saved[..i]))
      {
        ghost var before := cache.entries;
        cache.Put(saved[i].id, saved[i]);
        if RoomsCoherent(trace[0], base) {
          BulkPutKeepsCoherent(before, cache.entries, cache.capacity, base, saved, i);
        }
        trace := trace + [cache.entries];
      }
      assert saved[..|saved|] == saved;
    }

    /** `saveRoomsBulk(rooms)`: a null list is invalid input, then the checks
        of `BulkRejection` in order; on success all rooms are saved and then
        put one after the other under their ids (`trace` lists the cache
        states between the puts). */
    method SaveRoomsBulk(request: Option<seq<RoomRecord>>)
      returns (r: Result<seq<RoomRecord>>, ghost trace: seq<map<string, Entry<RoomRecord>>>)
      requires Valid()
      modifies this, cache
      ensures Valid()
      ensures old(Coherent()) ==> Coherent()
      ensures r.Err? ==> rooms == old(rooms) && cache.entries == old(cache.entries)
      ensures request.None? ==> r == Err(InvalidInput(RoomListEmpty))
      ensures request.Some? && BulkRejection(old(rooms), request.value).Some? ==>
        r == Err(BulkRejection(old(rooms), request.value).value)
      ensures request.Some? && BulkRejection(old(rooms), request.value).None? ==>
        r == Ok(request.value) && rooms == SavedAll(old(rooms), RoomId, request.value)
        && |trace| == |request.value| + 1 && trace[0] == old(cache.entries) && trace[|request.value|] == cache.entries
        && forall i :: 0 <= i < |request.value| ==>
             PutOutcome(trace[i], trace[i + 1], cache.capacity, request.value[i].id, request.value[i])
    {
      trace := [];
      if request.None? {
        return Err(InvalidInput(RoomListEmpty)), trace;
      }
      var rejection := BulkRejection(rooms, request.value);
      if rejection.Some? {
        return Err(rejection.value), trace;
      }
      var savedRooms := request.value;
      ghost var base := rooms;
      SavedAllUnique(rooms, RoomId, savedRooms);
      rooms := SavedAll(rooms, RoomId, savedRooms);
      trace := CacheAll(savedRooms, base);
      r := Ok(savedRooms);
    }
  }
}
