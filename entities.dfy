/** The in-memory many-to-many link between `Room` and `Facility`: a room
    lists its facilities, a facility lists its rooms, and `Room.addFacility`
    / `Room.removeFacility` update both sides. `Facility` equality is by id
    (`Facility.equals`); `Room` keeps reference equality. */
module Entities {

  class Facility {
    const id: string
    var name: string
    var rooms: seq<Room>

    /** `new Facility(id, name)`: no rooms yet. */
    constructor (id: string, name: string)
      ensures this.id == id && this.name == name && rooms == []
    {
      this.id := id;
      this.name := name;
      rooms := [];
    }
  }

  /** First position of a facility with the id (`List.indexOf` under
      `Facility.equals`), or -1. */
  function IndexOfFacility(fs: seq<Facility>, fid: string): (i: int)
    ensures -1 <= i < |fs|
    ensures i == -1 <==> forall j :: 0 <= j < |fs| ==> fs[j].id != fid
    ensures 0 <= i ==> fs[i].id == fid && forall j :: 0 <= j < i ==> fs[j].id != fid
  {
    if fs == [] then -1
    else if fs[0].id == fid then 0
    else
      var i := IndexOfFacility(fs[1..], fid);
      if i == -1 then -1 else i + 1
  }

  /** First position of the very object `x` (reference equality), or -1. */
  function IndexOf<T(==)>(s: seq<T>, x: T): (i: int)
    ensures -1 <= i < |s|
    ensures i == -1 <==> x !in s
    ensures 0 <= i ==> s[i] == x && x !in s[..i]
  {
    if s == [] then -1
    else if s[0] == x then 0
    else
      var i := IndexOf(s[1..], x);
      assert s[1..][..if i == -1 then 0 else i] == s[1..if i == -1 then 1 else i + 1];
      if i == -1 then -1 else i + 1
  }

  /** No two facilities of the list share an id. */
  predicate UniqueIds(fs: seq<Facility>) {
    forall i, j :: 0 <= i < j < |fs| ==> fs[i].id != fs[j].id
  }

  /** The facility list after `addFacility(f)`: `f` appended unless a
      facility with its id is already listed. */
  function WithFacility(fs: seq<Facility>, f: Facility): (r: seq<Facility>)
    ensures fs <= r && |r| <= |fs| + 1
    ensures |r| == |fs| + 1 <==> forall j :: 0 <= j < |fs| ==> fs[j].id != f.id
    ensures |r| == |fs| + 1 ==> r[|fs|] == f
    ensures exists j :: 0 <= j < |r| && r[j].id == f.id
  {
    if IndexOfFacility(fs, f.id) >= 0 then fs else fs + [f]
  }

  /** The facility's room list after `room.addFacility(f)`. */
  function WithRoom(fs: seq<Facility>, f: Facility, rs: seq<Room>, room: Room): (r: seq<Room>)
    ensures rs <= r && |r| <= |rs| + 1
    ensures |r| == |rs| + 1 <==> |WithFacility(fs, f)| == |fs| + 1
    ensures |r| == |rs| + 1 ==> r[|rs|] == room
  {
    if IndexOfFacility(fs, f.id) >= 0 then rs else rs + [room]
  }

  /** `List.remove(Object)` under `Facility.equals`: drop the first facility
      with the id, if any. */
  function WithoutFacility(fs: seq<Facility>, fid: string): (r: seq<Facility>)
    ensures IndexOfFacility(fs, fid) == -1 ==> r == fs
    ensures IndexOfFacility(fs, fid) >= 0 ==>
      |r| == |fs| - 1 && multiset(r) == multiset(fs) - multiset{fs[IndexOfFacility(fs, fid)]}
    ensures IndexOfFacility(fs, fid) >= 0 ==>
      forall j :: 0 <= j < |r| ==> r[j] == if j < IndexOfFacility(fs, fid) then fs[j] else fs[j + 1]
  {
    var i := IndexOfFacility(fs, fid);
    if i == -1 then fs
    else
      RemoveAtShifts(fs, i);
      fs[..i] + fs[i + 1..]
  }

  /** `List.remove(Object)` under reference equality. */
  function Without<T(==)>(s: seq<T>, x: T): (r: seq<T>)
    ensures x !in s ==> r == s
    ensures x in s ==> |r| == |s| - 1 && multiset(r) == multiset(s) - multiset{x}
    ensures x in s ==> forall j :: 0 <= j < |r| ==> r[j] == if j < IndexOf(s, x) then s[j] else s[j + 1]
  {
    var i := IndexOf(s, x);
    if i == -1 then s
    else
      RemoveAtShifts(s, i);
      s[..i] + s[i + 1..]
  }

  class Room {
    const id: string
    var facilities: seq<Facility>

    /** `new Room()`: no facilities yet. */
    constructor (id: string)
      ensures this.id == id && facilities == []
    {
      this.id := id;
      facilities := [];
    }

    /** `addFacility(f)`: when no facility with `f`'s id is listed, link both
        sides; otherwise change nothing. */
    method AddFacility(f: Facility)
      modifies this, f`rooms
      ensures facilities == WithFacility(old(facilities), f)
      ensures f.rooms == WithRoom(old(facilities), f, old(f.rooms), this)
      ensures old(multiset(facilities)[f] == multiset(f.rooms)[this]) ==>
        multiset(facilities)[f] == multiset(f.rooms)[this]
    {
      if multiset(facilities)[f] == multiset(f.rooms)[this] {
        AddKeepsLink(facilities, f, f.rooms, this);
      }
      if IndexOfFacility(facilities, f.id) < 0 {
        facilities := facilities + [f];
        f.rooms := f.rooms + [this];
      }
    }

    /** `removeFacility(f)`: drop the first facility with `f`'s id from this
        room and this room from `f`'s list, each if present. */
    method RemoveFacility(f: Facility)
      modifies this, f`rooms
      ensures facilities == WithoutFacility(old(facilities), f.id)
      ensures f.rooms == Without(old(f.rooms), this)
      ensures old(UniqueIds(facilities) && multiset(facilities)[f] == multiset(f.rooms)[this]) ==>
        multiset(facilities)[f] == multiset(f.rooms)[this]
    {
      if UniqueIds(facilities) && multiset(facilities)[f] == multiset(f.rooms)[this] {
        RemoveKeepsLink(facilities, f, f.rooms, this);
      }
      facilities := WithoutFacility(facilities, f.id);
      f.rooms := Without(f.rooms, this);
    }
  }

  // ----- properties of the link operations -----

  /** Adding twice is adding once, on both sides of the link. */
  lemma WithFacilityIdempotent(fs: seq<Facility>, f: Facility, rs: seq<Room>, room: Room)
    ensures WithFacility(WithFacility(fs, f), f) == WithFacility(fs, f)
    ensures WithRoom(WithFacility(fs, f), f, WithRoom(fs, f, rs, room), room) == WithRoom(fs, f, rs, room)
    ensures IndexOfFacility(WithFacility(fs, f), f.id) >= 0
  {
    if IndexOfFacility(fs, f.id) < 0 {
      assert (fs + [f])[|fs|].id == f.id;
    }
  }

  /** The id check keeps the ids of a room's facilities distinct. */
  lemma WithFacilityKeepsIdsUnique(fs: seq<Facility>, f: Facility)
    requires UniqueIds(fs)
    ensures UniqueIds(WithFacility(fs, f))
  {
  }

  /** Removing what was just added gives back the room's list ... */
  lemma RemoveUndoesAdd(fs: seq<Facility>, f: Facility)
    requires IndexOfFacility(fs, f.id) < 0
    ensures WithoutFacility(WithFacility(fs, f), f.id) == fs
  {
    var added := fs + [f];
    assert added[|fs|].id == f.id;
    assert IndexOfFacility(added, f.id) == |fs|;
    assert added[..|fs|] == fs;
  }

  /** ... and the facility's list. */
  lemma RemoveUndoesAddRoom(fs: seq<Facility>, f: Facility, rs: seq<Room>, room: Room)
    requires IndexOfFacility(fs, f.id) < 0 && room !in rs
    ensures Without(WithRoom(fs, f, rs, room), room) == rs
  {
    var added := rs + [room];
    assert added[|rs|] == room;
    assert IndexOf(added, room) == |rs|;
    assert added[..|rs|] == rs;
  }

  /** Dropping position `i` shifts the later elements down by one and takes
      one copy of `s[i]` out of the multiset. */
  lemma RemoveAtShifts<T>(s: seq<T>, i: nat)
    requires i < |s|
    ensures |s[..i] + s[i + 1..]| == |s| - 1
    ensures forall j :: 0 <= j < |s| - 1 ==> (s[..i] + s[i + 1..])[j] == if j < i then s[j] else s[j + 1]
    ensures multiset(s[..i] + s[i + 1..]) == multiset(s) - multiset{s[i]}
  {
    assert s == s[..i] + [s[i]] + s[i + 1..];
  }

  /** After a removal from a list with distinct ids no facility with that id
      is left, and the ids stay distinct. */
  lemma WithoutFacilityRemovesId(fs: seq<Facility>, fid: string)
    requires UniqueIds(fs)
    ensures IndexOfFacility(WithoutFacility(fs, fid), fid) == -1
    ensures UniqueIds(WithoutFacility(fs, fid))
  {
    var i := IndexOfFacility(fs, fid);
    var r := WithoutFacility(fs, fid);
    if i >= 0 {
      forall j | 0 <= j < |r| ensures r[j].id != fid {
        if j < i {
          assert r[j] == fs[j];
        } else {
          assert r[j] == fs[j + 1];
        }
      }
      forall j, k | 0 <= j < k < |r| ensures r[j].id != r[k].id {
        assert r[j] == fs[if j < i then j else j + 1];
        assert r[k] == fs[if k < i then k else k + 1];
      }
    }
  }

  /** `addFacility` keeps the two sides in step for the facility added: `f`
      is listed by the room as often as the room is listed by `f`. */
  lemma AddKeepsLink(fs: seq<Facility>, f: Facility, rs: seq<Room>, room: Room)
    requires multiset(fs)[f] == multiset(rs)[room]
    ensures multiset(WithFacility(fs, f))[f] == multiset(WithRoom(fs, f, rs, room))[room]
  {
    if IndexOfFacility(fs, f.id) < 0 {
      assert multiset(fs + [f]) == multiset(fs) + multiset{f};
      assert multiset(rs + [room]) == multiset(rs) + multiset{room};
    }
  }

  /** `removeFacility` keeps the two sides in step for the facility passed,
      provided the room's facility ids are distinct. */
  lemma RemoveKeepsLink(fs: seq<Facility>, f: Facility, rs: seq<Room>, room: Room)
    requires UniqueIds(fs)
    requires multiset(fs)[f] == multiset(rs)[room]
    ensures multiset(WithoutFacility(fs, f.id))[f] == multiset(Without(rs, room))[room]
  {
    var i := IndexOfFacility(fs, f.id);
    var after := WithoutFacility(fs, f.id);
    if i == -1 {
      assert f !in fs;
      assert room !in rs;
    } else if fs[i] == f {
      assert multiset(after) == multiset(fs) - multiset{f};
      assert room in rs;
    } else {
      assert f !in fs by {
        forall j | 0 <= j < |fs| ensures fs[j] != f {
          if j != i {
            assert fs[j].id != fs[i].id;
          }
        }
      }
      assert room !in rs;
      assert multiset(after) == multiset(fs) - multiset{fs[i]};
    }
  }
}
