/** The seating chart: tables with a number of seats and the ids of the
    guests placed at them. Every update builds a new list of tables with
    `map`/`filter` and replaces the old one wholesale, so the operations are
    functions from the old list of tables to the new one. */
module Seating {
  import opened Base

  /** `{ id, name, capacity, guests }` */
  datatype Table = Table(id: int, name: string, capacity: int, guests: seq<int>)

  /** `{ used, total }` */
  datatype Usage = Usage(used: int, total: int)

  /** `table.capacity > table.guests.length` */
  predicate HasRoom(t: Table)
  {
    t.capacity > |t.guests|
  }

  /** No table holds more guests than it has seats. */
  predicate WithinCapacity(tables: seq<Table>)
  {
    forall i | 0 <= i < |tables| :: |tables[i].guests| <= tables[i].capacity
  }

  /** No two tables share an id. */
  predicate UniqueIds(tables: seq<Table>)
  {
    forall i, j | 0 <= i < j < |tables| :: tables[i].id != tables[j].id
  }

  /** `after` has the same tables as `before`, in the same order, with the
      same ids, names and capacities: only guest lists may differ. */
  predicate SameTables(before: seq<Table>, after: seq<Table>)
  {
    && |after| == |before|
    && forall i | 0 <= i < |before| ::
         after[i].id == before[i].id && after[i].name == before[i].name && after[i].capacity == before[i].capacity
  }

  /** The test `gid => gid !== guestId`. */
  function NotGuest(guestId: int): (test: int -> bool)
    ensures forall g :: test(g) == (g != guestId)
  {
    g => g != guestId
  }

  /** `guests.filter(gid => gid !== guestId)` */
  function Without(guests: seq<int>, guestId: int): (r: seq<int>)
    ensures guestId !in r
    ensures forall g :: g in r <==> g in guests && g != guestId
    ensures |r| <= |guests|
  {
    var r := Filter(guests, NotGuest(guestId));
    forall g ensures g in r <==> g in guests && g != guestId {
      FilterMember(guests, NotGuest(guestId), g);
    }
    r
  }

  /* ---------------- assignGuestToTable, as written ---------------- */

  /** The callback of `tables.map` in `assignGuestToTable`: the list it
      builds of the tables without the guest is never used. */
  function SeatIfRoom(t: Table, guestId: int, tableId: int): Table
  {
    if t.id == tableId && HasRoom(t) then t.(guests := t.guests + [guestId]) else t
  }

  /** `assignGuestToTable(guestId, tableId)` as written. */
  function AssignGuestToTable(tables: seq<Table>, guestId: int, tableId: int): (r: seq<Table>)
    ensures SameTables(tables, r)
    ensures forall i | 0 <= i < |tables| && tables[i].id == tableId && HasRoom(tables[i]) ::
              r[i].guests == tables[i].guests + [guestId]
    ensures forall i | 0 <= i < |tables| && !(tables[i].id == tableId && HasRoom(tables[i])) ::
              r[i] == tables[i]
  {
    seq(|tables|, i requires 0 <= i < |tables| => SeatIfRoom(tables[i], guestId, tableId))
  }

  /** A full or missing target table leaves the chart as it was. */
  lemma AssignToFullOrMissing(tables: seq<Table>, guestId: int, tableId: int)
    requires forall i | 0 <= i < |tables| :: tables[i].id == tableId ==> !HasRoom(tables[i])
    ensures AssignGuestToTable(tables, guestId, tableId) == tables
  {
    var r := AssignGuestToTable(tables, guestId, tableId);
    assert forall i | 0 <= i < |tables| :: r[i] == tables[i];
  }

  /** Assigning never overfills a table: the guest is added only where a
      seat is free. */
  lemma AssignWithinCapacity(tables: seq<Table>, guestId: int, tableId: int)
    requires WithinCapacity(tables)
    ensures WithinCapacity(AssignGuestToTable(tables, guestId, tableId))
  {
    var r := AssignGuestToTable(tables, guestId, tableId);
    forall i | 0 <= i < |r|
      ensures |r[i].guests| <= r[i].capacity
    {
      if tables[i].id == tableId && HasRoom(tables[i]) {
        assert |r[i].guests| == |tables[i].guests| + 1;
      }
    }
  }

  /** The guest keeps the seat it already had: a guest seated at table `i`
      and assigned to another table `k` with room is at both afterwards. */
  lemma AssignKeepsOldSeat(tables: seq<Table>, guestId: int, i: nat, k: nat)
    requires i < |tables| && k < |tables|
    requires guestId in tables[i].guests && tables[i].id != tables[k].id
    requires HasRoom(tables[k])
    ensures var r := AssignGuestToTable(tables, guestId, tables[k].id);
            guestId in r[i].guests && guestId in r[k].guests
  {
    var r := AssignGuestToTable(tables, guestId, tables[k].id);
    assert r[i] == tables[i];
    assert r[k].guests == tables[k].guests + [guestId];
    assert r[k].guests[|tables[k].guests|] == guestId;
  }

  /** The chart the page starts from: four tables of eight seats. */
  const StartingTables: seq<Table> := [
    Table(1, "Table 1", 8, [1, 2, 3, 4]),
    Table(2, "Table 2", 8, [5, 6]),
    Table(3, "Table 3", 8, [7, 8, 9]),
    Table(4, "Table 4", 8, [10])
  ]

  /** On the starting chart, guest 1 sits at "Table 1"; assigning it to
      "Table 2" leaves it at both tables. */
  lemma GuestSeatedTwice()
    ensures var after := AssignGuestToTable(StartingTables, 1, 2);
            1 in after[0].guests && 1 in after[1].guests
  {
    assert 1 in StartingTables[0].guests;
    AssignKeepsOldSeat(StartingTables, 1, 0, 1);
  }

  /* ---------------- moving a guest, as intended ---------------- */

  /** Some table with id `tableId` has a free seat. */
  predicate TargetHasRoom(tables: seq<Table>, tableId: int)
  {
    exists i | 0 <= i < |tables| :: tables[i].id == tableId && HasRoom(tables[i])
  }

  /** The callback once the guest is first taken off every table. */
  function MoveIfRoom(t: Table, guestId: int, tableId: int): Table
  {
    var rest := Without(t.guests, guestId);
    if t.id == tableId && HasRoom(t) then t.(guests := rest + [guestId]) else t.(guests := rest)
  }

  /** `assignGuestToTable` with the list of tables without the guest put to
      use: when the target table has a free seat, the guest leaves every
      table and takes that seat; otherwise nothing changes. */
  function MoveGuestToTable(tables: seq<Table>, guestId: int, tableId: int): (r: seq<Table>)
    ensures SameTables(tables, r)
    ensures !TargetHasRoom(tables, tableId) ==> r == tables
    ensures TargetHasRoom(tables, tableId) ==>
              forall i | 0 <= i < |tables| && tables[i].id == tableId && HasRoom(tables[i]) ::
                r[i].guests == Without(tables[i].guests, guestId) + [guestId]
    ensures TargetHasRoom(tables, tableId) ==>
              forall i | 0 <= i < |tables| && !(tables[i].id == tableId && HasRoom(tables[i])) ::
                guestId !in r[i].guests && forall g | g != guestId :: g in r[i].guests <==> g in tables[i].guests
  {
    if TargetHasRoom(tables, tableId) then
      seq(|tables|, i requires 0 <= i < |tables| => MoveIfRoom(tables[i], guestId, tableId))
    else tables
  }

  /** With unique ids, moving a guest to a table with a free seat leaves the
      guest at exactly one table, once. */
  lemma MoveSeatsOnce(tables: seq<Table>, guestId: int, k: nat)
    requires UniqueIds(tables) && k < |tables| && HasRoom(tables[k])
    ensures var r := MoveGuestToTable(tables, guestId, tables[k].id);
            && multiset(r[k].guests)[guestId] == 1
            && forall i | 0 <= i < |r| && i != k :: guestId !in r[i].guests
  {
    var r := MoveGuestToTable(tables, guestId, tables[k].id);
    var rest := Without(tables[k].guests, guestId);
    assert TargetHasRoom(tables, tables[k].id);
    assert r[k].guests == rest + [guestId];
    assert multiset(rest)[guestId] == 0;
  }

  /** The same move on the starting chart, as intended: guest 1 ends up
      at "Table 2" only, once. */
  lemma GuestMovedOnce()
    ensures var after := MoveGuestToTable(StartingTables, 1, 2);
            && multiset(after[1].guests)[1] == 1
            && 1 !in after[0].guests && 1 !in after[2].guests && 1 !in after[3].guests
  {
    MoveSeatsOnce(StartingTables, 1, 1);
  }

  /** Moving never overfills a table. */
  lemma MoveWithinCapacity(tables: seq<Table>, guestId: int, tableId: int)
    requires WithinCapacity(tables)
    ensures WithinCapacity(MoveGuestToTable(tables, guestId, tableId))
  {
    var r := MoveGuestToTable(tables, guestId, tableId);
    if TargetHasRoom(tables, tableId) {
      forall i | 0 <= i < |r|
        ensures |r[i].guests| <= r[i].capacity
      {
        assert r[i] == MoveIfRoom(tables[i], guestId, tableId);
      }
    }
  }

  /* ---------------- removeGuestFromTable ---------------- */

  /** The callback of `tables.map` in `removeGuestFromTable`. */
  function UnseatAt(t: Table, guestId: int, tableId: int): Table
  {
    if t.id == tableId then t.(guests := Without(t.guests, guestId)) else t
  }

  /** `removeGuestFromTable(guestId, tableId)`: every occurrence of the guest
      leaves the table with that id; every other table is untouched. */
  function RemoveGuestFromTable(tables: seq<Table>, guestId: int, tableId: int): (r: seq<Table>)
    ensures SameTables(tables, r)
    ensures forall i | 0 <= i < |tables| && tables[i].id == tableId ::
              guestId !in r[i].guests && forall g | g != guestId :: g in r[i].guests <==> g in tables[i].guests
    ensures forall i | 0 <= i < |tables| && tables[i].id != tableId :: r[i] == tables[i]
  {
    seq(|tables|, i requires 0 <= i < |tables| => UnseatAt(tables[i], guestId, tableId))
  }

  /** Removing never overfills a table. */
  lemma RemoveWithinCapacity(tables: seq<Table>, guestId: int, tableId: int)
    requires WithinCapacity(tables)
    ensures WithinCapacity(RemoveGuestFromTable(tables, guestId, tableId))
  {
    var r := RemoveGuestFromTable(tables, guestId, tableId);
    forall i | 0 <= i < |r|
      ensures |r[i].guests| <= r[i].capacity
    {
      assert r[i] == UnseatAt(tables[i], guestId, tableId);
    }
  }

  /** Removing a guest the table does not hold changes nothing. */
  lemma RemoveAbsentGuest(tables: seq<Table>, guestId: int, tableId: int)
    requires forall i | 0 <= i < |tables| && tables[i].id == tableId :: guestId !in tables[i].guests
    ensures RemoveGuestFromTable(tables, guestId, tableId) == tables
  {
    var r := RemoveGuestFromTable(tables, guestId, tableId);
    forall i | 0 <= i < |tables|
      ensures r[i] == tables[i]
    {
      if tables[i].id == tableId {
        WithoutAbsent(tables[i].guests, guestId);
        assert r[i].guests == tables[i].guests;
      }
    }
  }

  lemma WithoutAbsent(guests: seq<int>, guestId: int)
    requires guestId !in guests
    ensures Without(guests, guestId) == guests
  {
    FilterAll(guests, NotGuest(guestId));
  }

  /* ---------------- getTableCapacityUsage ---------------- */

  /** `tables.find(t => t.id === tableId)`, as the index of the first match. */
  function FindTable(tables: seq<Table>, tableId: int): (r: Option<nat>)
    ensures r.Some? ==> r.value < |tables| && tables[r.value].id == tableId
    ensures r.Some? ==> forall j | 0 <= j < r.value :: tables[j].id != tableId
    ensures r.None? ==> forall j | 0 <= j < |tables| :: tables[j].id != tableId
  {
    if |tables| == 0 then None
    else if tables[0].id == tableId then Some(0)
    else match FindTable(tables[1..], tableId)
      case None => None
      case Some(j) => Some(j + 1)
  }

  /** `getTableCapacityUsage(tableId)` */
  function GetTableCapacityUsage(tables: seq<Table>, tableId: int): (r: Usage)
    ensures (forall j | 0 <= j < |tables| :: tables[j].id != tableId) ==> r == Usage(0, 0)
    ensures forall k | 0 <= k < |tables| && tables[k].id == tableId && (forall j | 0 <= j < k :: tables[j].id != tableId) ::
              r == Usage(|tables[k].guests|, tables[k].capacity)
  {
    match FindTable(tables, tableId)
    case None => Usage(0, 0)
    case Some(k) => Usage(|tables[k].guests|, tables[k].capacity)
  }

  /** The free seats the page draws for a table (`total - used`) are never
      negative on a chart within capacity. */
  lemma FreeSeatsNonNegative(tables: seq<Table>, tableId: int)
    requires WithinCapacity(tables)
    ensures GetTableCapacityUsage(tables, tableId).used <= GetTableCapacityUsage(tables, tableId).total
  {
  }

  /* ---------------- the totals ---------------- */

  /** `tables.reduce((sum, table) => sum + table.guests.length, 0)` */
  function Seated(tables: seq<Table>): (n: int)
    ensures n >= 0
  {
    if |tables| == 0 then 0 else Seated(tables[..|tables| - 1]) + |tables[|tables| - 1].guests|
  }

  /** `tables.reduce((sum, table) => sum + (table.capacity - table.guests.length), 0)` */
  function Available(tables: seq<Table>): int
  {
    if |tables| == 0 then 0
    else
      var t := tables[|tables| - 1];
      Available(tables[..|tables| - 1]) + (t.capacity - |t.guests|)
  }

  /** The seats of all tables together. */
  function TotalCapacity(tables: seq<Table>): int
  {
    if |tables| == 0 then 0 else TotalCapacity(tables[..|tables| - 1]) + tables[|tables| - 1].capacity
  }

  /** Seated guests and available seats add up to the seats of all tables. */
  lemma {:induction false} SeatedPlusAvailable(tables: seq<Table>)
    ensures Seated(tables) + Available(tables) == TotalCapacity(tables)
  {
    if |tables| > 0 {
      SeatedPlusAvailable(tables[..|tables| - 1]);
    }
  }

  /** On a chart within capacity no count of available seats is negative. */
  lemma {:induction false} AvailableNonNegative(tables: seq<Table>)
    requires WithinCapacity(tables)
    ensures Available(tables) >= 0
  {
    if |tables| > 0 {
      AvailableNonNegative(tables[..|tables| - 1]);
    }
  }

  /** Seating a guest at a table with a free seat takes exactly one available
      seat, when ids are unique. */
  lemma {:induction false} AssignTakesOneSeat(tables: seq<Table>, guestId: int, tableId: int)
    requires UniqueIds(tables)
    ensures Seated(AssignGuestToTable(tables, guestId, tableId))
            == Seated(tables) + (if TargetHasRoom(tables, tableId) then 1 else 0)
    decreases |tables|
  {
    if |tables| > 0 {
      var n := |tables| - 1;
      var init := tables[..n];
      var r := AssignGuestToTable(tables, guestId, tableId);
      assert r[..n] == AssignGuestToTable(init, guestId, tableId);
      AssignTakesOneSeat(init, guestId, tableId);
      if tables[n].id == tableId && HasRoom(tables[n]) {
        assert !TargetHasRoom(init, tableId);
      } else if TargetHasRoom(tables, tableId) {
        assert TargetHasRoom(init, tableId);
      } else {
        assert !TargetHasRoom(init, tableId);
      }
    }
  }
}
