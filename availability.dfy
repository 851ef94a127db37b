/** The bed-availability filter of the home page: the allotments whose window
    contains the query start mark their beds as occupied, and those beds are
    removed from the static floor/room/bed inventory. */
module Availability {
  import opened Wrappers
  import opened Js
  import opened Lists

  /** A date as a day number; None is an invalid date (`new Date("")`), which
      compares false with everything. */
  type Date = Option<int>

  /** The fields of an allotment the filter reads. */
  datatype Allotment = Allotment(bedNo: string, startDate: Date, dueDate: Date)

  /** The static inventory: floors of rooms of bed names. */
  datatype Room = Room(roomNo: string, beds: seq<string>)
  datatype Floor = Floor(floorNo: string, rooms: seq<Room>)

  /** `new Date(a) <= new Date(b)`. */
  predicate DateLe(a: Date, b: Date)
  {
    a.Some? && b.Some? && a.value <= b.value
  }

  /** The allotment's window contains the query start, both ends included. */
  predicate Covers(a: Allotment, start: Date): (covers: bool)
    ensures covers ==> start.Some? && a.startDate.Some? && a.dueDate.Some?
    ensures covers ==> a.startDate.value <= a.dueDate.value
  {
    DateLe(a.startDate, start) && DateLe(start, a.dueDate)
  }

  /** Both ends of the window count, the days just outside do not, and an
      invalid date anywhere means no cover. */
  lemma CoversBounds(bedNo: string, from: int, to: int, start: Date)
    requires from <= to
    ensures Covers(Allotment(bedNo, Some(from), Some(to)), Some(from))
    ensures Covers(Allotment(bedNo, Some(from), Some(to)), Some(to))
    ensures !Covers(Allotment(bedNo, Some(from), Some(to)), Some(from - 1))
    ensures !Covers(Allotment(bedNo, Some(from), Some(to)), Some(to + 1))
    ensures !Covers(Allotment(bedNo, None, Some(to)), start)
    ensures !Covers(Allotment(bedNo, Some(from), None), start)
    ensures !Covers(Allotment(bedNo, Some(from), Some(to)), None)
  {
  }

  /** `allotmentData.filter(item => startDate <= start && start <= dueDate)`. */
  function Occupying(allotments: seq<Allotment>, start: Date): (occupying: seq<Allotment>)
    ensures |occupying| <= |allotments|
    ensures forall k :: 0 <= k < |occupying| ==> Covers(occupying[k], start)
  {
    Filter(a => Covers(a, start), allotments)
  }

  /** `bedNo.split("-").slice(2).join("-")`: the pieces from the third on. */
  function OccupiedKey(bedNo: string): (key: string)
    ensures |Split(bedNo)| <= 2 ==> key == ""
    ensures |Split(bedNo)| <= 3 ==> Sep !in key
  {
    Join(SliceFrom(Split(bedNo), 2))
  }

  /** The occupied key of a bed number built from separator-free parts is
      the join of its parts from the third on; with fewer than three parts it
      is "". */
  lemma OccupiedKeyOfParts(parts: seq<string>)
    requires |parts| >= 1
    requires forall k :: 0 <= k < |parts| ==> Sep !in parts[k]
    ensures OccupiedKey(Join(parts)) == Join(SliceFrom(parts, 2))
    ensures |parts| <= 2 ==> OccupiedKey(Join(parts)) == ""
  {
    SplitJoin(parts);
  }

  /** The keys of the occupied beds, one per covering allotment, in order. */
  function OccupiedKeys(allotments: seq<Allotment>, start: Date): (keys: seq<string>)
    ensures |keys| <= |allotments|
  {
    var occupying := Occupying(allotments, start);
    seq(|occupying|, i requires 0 <= i < |occupying| => OccupiedKey(occupying[i].bedNo))
  }

  /** A key is occupied exactly when some allotment covering the start has
      that key. */
  lemma OccupiedKeysSpec(allotments: seq<Allotment>, start: Date, key: string)
    ensures key in OccupiedKeys(allotments, start) <==>
              exists a :: a in allotments && Covers(a, start) && OccupiedKey(a.bedNo) == key
  {
    var occupying := Occupying(allotments, start);
    var keys := OccupiedKeys(allotments, start);
    if key in keys {
      var i :| 0 <= i < |keys| && keys[i] == key;
      FilterMembers(a => Covers(a, start), allotments, occupying[i]);
    }
    if exists a :: a in allotments && Covers(a, start) && OccupiedKey(a.bedNo) == key {
      var a :| a in allotments && Covers(a, start) && OccupiedKey(a.bedNo) == key;
      FilterMembers(a => Covers(a, start), allotments, a);
      var i :| 0 <= i < |occupying| && occupying[i] == a;
      assert keys[i] == key;
    }
  }

  /** `${room.roomNo}-${bed.split("-")[1]}`: a bed name without a separator
      gives "<roomNo>-undefined". */
  function BedKey(roomNo: string, bed: string): (key: string)
    ensures |roomNo| < |key| && key[..|roomNo|] == roomNo && key[|roomNo|] == Sep
    ensures Sep !in bed ==> key == roomNo + [Sep] + "undefined"
  {
    roomNo + [Sep] + Interpolate(Token(bed, 1))
  }

  /** The key of a bed named by joining separator-free parts is the room
      number, a separator and the second part. */
  lemma BedKeyOfParts(roomNo: string, parts: seq<string>)
    requires |parts| >= 2
    requires forall k :: 0 <= k < |parts| ==> Sep !in parts[k]
    ensures BedKey(roomNo, Join(parts)) == roomNo + [Sep] + parts[1]
  {
    TokenOfJoin(parts, 1);
  }

  /** The bed is not among the occupied keys. */
  predicate IsFree(roomNo: string, bed: string, keys: seq<string>)
  {
    BedKey(roomNo, bed) !in keys
  }

  /** `room.beds.filter(bed => !beds.includes(bedKey))` wrapped back into the
      room. */
  function FilterRoom(room: Room, keys: seq<string>): (r: Room)
    ensures r.roomNo == room.roomNo && |r.beds| <= |room.beds|
    ensures forall k :: 0 <= k < |r.beds| ==> BedKey(room.roomNo, r.beds[k]) !in keys
  {
    Room(room.roomNo, Filter(bed => IsFree(room.roomNo, bed, keys), room.beds))
  }

  /** `floor.rooms.map(...)` wrapped back into the floor. */
  function FilterFloor(floor: Floor, keys: seq<string>): (r: Floor)
    ensures r.floorNo == floor.floorNo && |r.rooms| == |floor.rooms|
    ensures forall j :: 0 <= j < |r.rooms| ==>
              r.rooms[j].roomNo == floor.rooms[j].roomNo &&
              |r.rooms[j].beds| <= |floor.rooms[j].beds|
  {
    Floor(floor.floorNo, seq(|floor.rooms|, j requires 0 <= j < |floor.rooms| => FilterRoom(floor.rooms[j], keys)))
  }

  /** `bedData.map(...)`: the inventory with the beds whose key is occupied
      removed. */
  function FilterInventory(inventory: seq<Floor>, keys: seq<string>): (r: seq<Floor>)
    ensures |r| == |inventory|
    ensures forall i :: 0 <= i < |r| ==>
              r[i].floorNo == inventory[i].floorNo && |r[i].rooms| == |inventory[i].rooms|
  {
    seq(|inventory|, i requires 0 <= i < |inventory| => FilterFloor(inventory[i], keys))
  }

  /** What `applyFilters(start, end)` stores: the end date plays no part. */
  function AvailableBeds(inventory: seq<Floor>, allotments: seq<Allotment>, start: Date): (r: seq<Floor>)
    ensures |r| == |inventory|
    ensures forall i, j, k :: 0 <= i < |r| && 0 <= j < |r[i].rooms| && 0 <= k < |r[i].rooms[j].beds| ==>
              BedKey(r[i].rooms[j].roomNo, r[i].rooms[j].beds[k]) !in OccupiedKeys(allotments, start)
  {
    FilterInventory(inventory, OccupiedKeys(allotments, start))
  }

  /** The result has the inventory's floors, in order and with their numbers,
      each with its rooms in order and with their numbers; each room's beds
      are an order-preserving sublist of the inventory room's beds, and a bed
      stays exactly when its key is not occupied. */
  lemma AvailableBedsShape(inventory: seq<Floor>, allotments: seq<Allotment>, start: Date)
    ensures var r := AvailableBeds(inventory, allotments, start);
            |r| == |inventory| &&
            forall i :: 0 <= i < |r| ==>
              r[i].floorNo == inventory[i].floorNo &&
              |r[i].rooms| == |inventory[i].rooms| &&
              forall j :: 0 <= j < |r[i].rooms| ==>
                r[i].rooms[j].roomNo == inventory[i].rooms[j].roomNo &&
                IsSublist(r[i].rooms[j].beds, inventory[i].rooms[j].beds)
  {
    var keys := OccupiedKeys(allotments, start);
    var r := AvailableBeds(inventory, allotments, start);
    forall i, j | 0 <= i < |r| && 0 <= j < |r[i].rooms|
      ensures IsSublist(r[i].rooms[j].beds, inventory[i].rooms[j].beds)
    {
      var room := inventory[i].rooms[j];
      FilterIsSublist(bed => IsFree(room.roomNo, bed, keys), room.beds);
    }
  }

  /** A bed of inventory room (i, j) is still listed exactly when it was in
      that room and its key `roomNo-<second piece of the bed>` is not
      occupied. */
  lemma AvailableBedIff(inventory: seq<Floor>, allotments: seq<Allotment>, start: Date,
                        i: nat, j: nat, bed: string)
    requires i < |inventory| && j < |inventory[i].rooms|
    ensures var room := inventory[i].rooms[j];
            bed in AvailableBeds(inventory, allotments, start)[i].rooms[j].beds <==>
              bed in room.beds && BedKey(room.roomNo, bed) !in OccupiedKeys(allotments, start)
  {
    var room := inventory[i].rooms[j];
    var keys := OccupiedKeys(allotments, start);
    FilterMembers(bed => IsFree(room.roomNo, bed, keys), room.beds, bed);
  }

  /** With no covering allotment (no allotments, an invalid start, or no
      window containing the start) the inventory comes back unchanged. */
  lemma NothingOccupiedKeepsInventory(inventory: seq<Floor>, allotments: seq<Allotment>, start: Date)
    requires forall k :: 0 <= k < |allotments| ==> !Covers(allotments[k], start)
    ensures AvailableBeds(inventory, allotments, start) == inventory
  {
    FilterDropsAll(a => Covers(a, start), allotments);
    var keys := OccupiedKeys(allotments, start);
    assert keys == [];
    forall i, j | 0 <= i < |inventory| && 0 <= j < |inventory[i].rooms|
      ensures FilterRoom(inventory[i].rooms[j], keys) == inventory[i].rooms[j]
    {
      var room := inventory[i].rooms[j];
      FilterKeepsAll(bed => IsFree(room.roomNo, bed, keys), room.beds);
    }
    forall i | 0 <= i < |inventory|
      ensures FilterFloor(inventory[i], keys) == inventory[i]
    {
      assert FilterFloor(inventory[i], keys).rooms == inventory[i].rooms;
    }
  }

  /** An invalid start date leaves the inventory as it is. */
  lemma InvalidStartKeepsInventory(inventory: seq<Floor>, allotments: seq<Allotment>)
    ensures AvailableBeds(inventory, allotments, None) == inventory
  {
    NothingOccupiedKeepsInventory(inventory, allotments, None);
  }

  /** A bed number `floor-roomPart-roomNo-suffix` of separator-free parts has
      the occupied key `roomNo-suffix`, which is also that bed's own key. */
  lemma FourPartKey(floor: string, roomPart: string, roomNo: string, suffix: string)
    requires Sep !in floor && Sep !in roomPart && Sep !in roomNo && Sep !in suffix
    ensures var bed := roomNo + [Sep] + suffix;
            OccupiedKey(floor + [Sep] + roomPart + [Sep] + bed) == bed && BedKey(roomNo, bed) == bed
  {
    var bed := roomNo + [Sep] + suffix;
    var parts := [floor, roomPart, roomNo, suffix];
    assert Join([roomNo, suffix]) == bed by {
      assert [roomNo, suffix][1..] == [suffix];
    }
    assert Join(parts) == floor + [Sep] + roomPart + [Sep] + bed by {
      assert parts[1..] == [roomPart, roomNo, suffix] && parts[1..][1..] == [roomNo, suffix];
      assert Join(parts[1..]) == roomPart + [Sep] + bed;
      assert Join(parts) == floor + [Sep] + (roomPart + [Sep] + bed);
    }
    OccupiedKeyOfParts(parts);
    assert SliceFrom(parts, 2) == [roomNo, suffix];
    BedKeyOfParts(roomNo, [roomNo, suffix]);
  }

  /** An allotment whose bed number is written `floor-room-<bed>`, where
      `<bed>` is the inventory name `roomNo-suffix` of a bed of room (i, j),
      hides that bed as long as its window contains the start. */
  lemma CoveredBedIsHidden(inventory: seq<Floor>, allotments: seq<Allotment>, start: Date,
                           i: nat, j: nat, floor: string, roomPart: string, suffix: string)
    requires i < |inventory| && j < |inventory[i].rooms|
    requires Sep !in floor && Sep !in roomPart && Sep !in suffix
    requires Sep !in inventory[i].rooms[j].roomNo
    requires var bed := inventory[i].rooms[j].roomNo + [Sep] + suffix;
             exists a :: a in allotments && Covers(a, start) &&
                         a.bedNo == floor + [Sep] + roomPart + [Sep] + bed
    ensures inventory[i].rooms[j].roomNo + [Sep] + suffix !in AvailableBeds(inventory, allotments, start)[i].rooms[j].beds
  {
    var roomNo := inventory[i].rooms[j].roomNo;
    var bed := roomNo + [Sep] + suffix;
    var a :| a in allotments && Covers(a, start) && a.bedNo == floor + [Sep] + roomPart + [Sep] + bed;
    FourPartKey(floor, roomPart, roomNo, suffix);
    OccupiedKeysSpec(allotments, start, bed);
    AvailableBedIff(inventory, allotments, start, i, j, bed);
  }

  /** A bed number written with only three parts, `floor-room-bedLetter`,
      leaves the bed `room-bedLetter` listed: its occupied key is the letter
      alone. */
  lemma ThreePartBedNoHidesNothing()
    ensures OccupiedKey("1-101-A") == "A"
    ensures BedKey("101", "101-A") == "101-A"
  {
    assert Join(["1", "101", "A"]) == "1-101-A";
    OccupiedKeyOfParts(["1", "101", "A"]);
    assert SliceFrom(["1", "101", "A"], 2) == ["A"];
    assert Join(["101", "A"]) == "101-A";
    TokenOfJoin(["101", "A"], 1);
  }

  /** A bed number with at most three pieces (`floor-room-bedLetter`, or
      fewer) never hides any bed: its occupied key holds no separator, while
      every bed key does. */
  lemma ShortBedNoHidesNothing(roomNo: string, bed: string, bedNo: string)
    requires |Split(bedNo)| <= 3
    ensures BedKey(roomNo, bed) != OccupiedKey(bedNo)
  {
    assert Sep !in OccupiedKey(bedNo);
    assert BedKey(roomNo, bed)[|roomNo|] == Sep;
  }

  /** The converse of `CoveredBedIsHidden`: the only bed numbers whose key is
      that of bed `roomNo-x` have exactly four pieces, the last two being
      `roomNo` and `x`. */
  lemma HiddenOnlyByFourParts(roomNo: string, x: string, bedNo: string)
    requires Sep !in roomNo && Sep !in x
    requires OccupiedKey(bedNo) == BedKey(roomNo, roomNo + [Sep] + x)
    ensures |Split(bedNo)| == 4 && Split(bedNo)[2] == roomNo && Split(bedNo)[3] == x
  {
    assert Join([roomNo, x]) == roomNo + [Sep] + x by {
      assert [roomNo, x][1..] == [x];
    }
    BedKeyOfParts(roomNo, [roomNo, x]);
    var pieces := SliceFrom(Split(bedNo), 2);
    assert Join(pieces) == roomNo + [Sep] + x;
    assert |pieces| >= 1;
    SplitJoin(pieces);
    SplitJoin([roomNo, x]);
    assert pieces == [roomNo, x];
  }

  /** A single allotment that covers the start occupies exactly its own key. */
  lemma SingleCoveringKeys(a: Allotment, start: Date)
    requires Covers(a, start)
    ensures OccupiedKeys([a], start) == [OccupiedKey(a.bedNo)]
  {
    assert [a][1..] == [];
    assert Occupying([a], start) == [a];
  }

  /** For a one-floor, one-room inventory the result's room is the filtered
      room. */
  lemma SingleRoomResult(floor: string, room: Room, allotments: seq<Allotment>, start: Date)
    ensures AvailableBeds([Floor(floor, [room])], allotments, start)[0].rooms[0] ==
            FilterRoom(room, OccupiedKeys(allotments, start))
  {
    var keys := OccupiedKeys(allotments, start);
    var inventory := [Floor(floor, [room])];
    assert AvailableBeds(inventory, allotments, start)[0] == FilterFloor(inventory[0], keys);
  }

  /** A room none of whose bed keys is occupied comes back whole. */
  lemma RoomKeptWhole(room: Room, keys: seq<string>)
    requires forall k :: 0 <= k < |room.beds| ==> BedKey(room.roomNo, room.beds[k]) !in keys
    ensures FilterRoom(room, keys) == room
  {
    FilterKeepsAll(bed => IsFree(room.roomNo, bed, keys), room.beds);
  }

  /** A room of two beds loses the first and keeps the second when only the
      first one's key is occupied. */
  lemma TwoBedRoom(roomNo: string, bedX: string, bedY: string, keys: seq<string>)
    requires BedKey(roomNo, bedX) in keys && BedKey(roomNo, bedY) !in keys
    ensures FilterRoom(Room(roomNo, [bedX, bedY]), keys).beds == [bedY]
  {
    var keep := bed => IsFree(roomNo, bed, keys);
    assert !keep(bedX) && keep(bedY);
    assert [bedX, bedY][1..] == [bedY];
    assert Filter(keep, [bedY]) == [bedY];
  }

  /** A room `roomNo` with beds `roomNo-x` and `roomNo-y` (x != y): an
      allotment of bed `floor-roomNo-roomNo-x` whose window contains the
      start leaves only `roomNo-y`. With floor 1, room 101 and beds A, B this
      is bed "1-101-101-A" hiding "101-A" and leaving "101-B". */
  lemma RoomScenario(floor: string, roomNo: string, x: string, y: string,
                     from: int, to: int, day: int)
    requires Sep !in floor && Sep !in roomNo && Sep !in x && Sep !in y && x != y
    requires from <= day <= to
    ensures var bedX := roomNo + [Sep] + x;
            var bedY := roomNo + [Sep] + y;
            var inventory := [Floor(floor, [Room(roomNo, [bedX, bedY])])];
            var allotment := Allotment(floor + [Sep] + roomNo + [Sep] + bedX, Some(from), Some(to));
            AvailableBeds(inventory, [allotment], Some(day))[0].rooms[0].beds == [bedY]
  {
    var bedX := roomNo + [Sep] + x;
    var bedY := roomNo + [Sep] + y;
    var allotment := Allotment(floor + [Sep] + roomNo + [Sep] + bedX, Some(from), Some(to));
    FourPartKey(floor, roomNo, roomNo, x);
    FourPartKey(floor, roomNo, roomNo, y);
    SingleCoveringKeys(allotment, Some(day));
    assert bedX != bedY by {
      assert bedX[|roomNo| + 1..] == x && bedY[|roomNo| + 1..] == y;
    }
    TwoBedRoom(roomNo, bedX, bedY, [bedX]);
    SingleRoomResult(floor, Room(roomNo, [bedX, bedY]), [allotment], Some(day));
  }

  /** The same room with the allotment written `floor-roomNo-x`, three parts:
      its key is `x` alone, so both beds stay listed. */
  lemma RoomScenarioThreeParts(floor: string, roomNo: string, x: string, y: string,
                               from: int, to: int, day: int)
    requires Sep !in floor && Sep !in roomNo && Sep !in x && Sep !in y
    requires from <= day <= to
    ensures var bedX := roomNo + [Sep] + x;
            var bedY := roomNo + [Sep] + y;
            var inventory := [Floor(floor, [Room(roomNo, [bedX, bedY])])];
            var allotment := Allotment(floor + [Sep] + roomNo + [Sep] + x, Some(from), Some(to));
            AvailableBeds(inventory, [allotment], Some(day))[0].rooms[0].beds == [bedX, bedY]
  {
    var bedX := roomNo + [Sep] + x;
    var bedY := roomNo + [Sep] + y;
    var room := Room(roomNo, [bedX, bedY]);
    var allotment := Allotment(floor + [Sep] + roomNo + [Sep] + x, Some(from), Some(to));
    var parts := [floor, roomNo, x];
    assert Join(parts) == allotment.bedNo by {
      assert [roomNo, x][1..] == [x];
      assert Join([roomNo, x]) == roomNo + [Sep] + x;
      assert parts[1..] == [roomNo, x];
      assert Join(parts) == floor + [Sep] + (roomNo + [Sep] + x);
    }
    SplitJoin(parts);
    SingleCoveringKeys(allotment, Some(day));
    ShortBedNoHidesNothing(roomNo, bedX, allotment.bedNo);
    ShortBedNoHidesNothing(roomNo, bedY, allotment.bedNo);
    RoomKeptWhole(room, [OccupiedKey(allotment.bedNo)]);
    SingleRoomResult(floor, room, [allotment], Some(day));
  }

  // ---------------------------------------------------------------------------
  // Component state
  // ---------------------------------------------------------------------------

  /** The state of the availability table. */
  class AvailabilityTable {
    /** The static inventory (`bedData`). */
    const inventory: seq<Floor>
    var allotmentData: seq<Allotment>
    var filteredBeds: seq<Floor>
    var loading: bool

    /** Nothing fetched, nothing filtered, not loading. */
    constructor (inventory: seq<Floor>)
      ensures this.inventory == inventory
      ensures allotmentData == [] && filteredBeds == [] && !loading
    {
      this.inventory := inventory;
      allotmentData, filteredBeds, loading := [], [], false;
    }

    /** The fetch handler: a response with status 200 replaces the
        allotments; any other status leaves them as they were. */
    method ReceiveAllotments(status: int, data: seq<Allotment>)
      modifies this
      ensures allotmentData == if status == 200 then data else old(allotmentData)
      ensures filteredBeds == old(filteredBeds) && loading == old(loading)
    {
      if status == 200 {
        allotmentData := data;
      }
    }

    /** `applyFilters(start, end)`: afterwards `loading` is false and
        `filteredBeds` holds the inventory without the beds occupied on
        `start`; `end` is never read. */
    method ApplyFilters(start: Date, end: Date)
      modifies this
      ensures !loading
      ensures filteredBeds == AvailableBeds(inventory, allotmentData, start)
      ensures allotmentData == old(allotmentData)
    {
      loading := true;
      var beds := OccupiedKeys(allotmentData, start);
      var filteredRooms := FilterInventory(inventory, beds);
      filteredBeds := filteredRooms;
      loading := false;
    }
  }
}
