/** The persisted state of the entities the services read and write. Every
    service call loads its own copies from the store, so between calls the
    store and the caches hold values, not shared objects. */
module Records {
  import opened Common

  /** A row of the hotel table (`Hotel`); `rooms` lists the ids of its rooms. */
  datatype HotelRecord = HotelRecord(
    id: string,
    name: Option<string>,
    city: Option<string>,
    category: Option<string>,
    availableFromDate: Option<string>,
    rooms: Option<seq<string>>)

  /** A row of the room table (`Room`): `hotel` is the id of the owning hotel
      and `facilities` the ids in the room-facility join table. */
  datatype RoomRecord = RoomRecord(
    id: string,
    roomNumber: Option<string>,
    roomType: Option<string>,
    price: Option<real>,
    hotel: Option<string>,
    facilities: Option<set<string>>)

  /** A row of the facility table (`Facility`). */
  datatype FacilityRecord = FacilityRecord(id: string, name: string)

  function HotelId(h: HotelRecord): string { h.id }

  function RoomId(r: RoomRecord): string { r.id }

  /** The lowest price a room may have (`price < 0.1` is rejected). */
  const MinPrice: real := 0.1

  predicate PriceOk(price: real) {
    !(price < MinPrice)
  }
}
