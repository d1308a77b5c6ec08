/**
  The hotel: a fixed set of rooms, the occupancy index and the booking index, and
  the public operations on them. Every public operation holds the engine's lock for
  its whole run, so each is one atomic step; each method below is proved to take
  exactly the step that module Ledger defines for it, so every lemma of module
  LedgerProperties about that step applies to the method. `Valid` carries only the
  room set and well-formedness: consistency, the absence of double bookings and
  exactness are not kept by every run (module LedgerTrace shows a run that loses
  the first two, and a run that reuses a reference and loses the third), so the
  lemmas state the conditions under which each is kept.
 */
module HotelEngine {
  import Availability
  import opened Ledger
  import opened LedgerProperties

  class Hotel {
    /** The room numbers the hotel was built with. */
    const roomNums: seq<int>
    /** Room number to the days on which the room is booked. */
    var roomBookings: Occupancy
    /** Booking reference to its entries, one per booked room. */
    var bookings: Index

    function View(): State
      reads this
    {
      State(roomBookings, bookings)
    }

    /** The rooms never change, and every stored entry names one of them and carries
        the reference it is stored under. */
    ghost predicate Valid()
      reads this
    {
      roomBookings.Keys == (set r | r in roomNums) && WellFormed(View())
    }

    /** Every given room starts with no booked day; there are no bookings. */
    constructor (roomNums: seq<int>)
      ensures this.roomNums == roomNums
      ensures roomBookings == map r | r in roomNums :: {}
      ensures bookings == map[]
      ensures Valid() && Consistent(View()) && NoDoubleBooking(View()) && Exact(View())
    {
      this.roomNums := roomNums;
      var occ: Occupancy := map[];
      for i := 0 to |roomNums|
        invariant occ == map r | r in roomNums[..i] :: {}
      {
        occ := occ[roomNums[i] := {}];
        assert roomNums[..i + 1] == roomNums[..i] + [roomNums[i]];
      }
      assert roomNums[..|roomNums|] == roomNums;
      roomBookings := occ;
      bookings := map[];
    }

    /** `roomBooked`: never true for a room the hotel does not have; true for a day
        some booking holds in the room when the indexes are consistent, and only
        for such a day when they are exact. */
    function RoomBooked(days: seq<int>, roomNum: int): (b: bool)
      reads this
      requires Valid()
      ensures roomNum !in roomNums ==> !b
      ensures Consistent(View()) ==>
        (exists ref, i :: ref in bookings && 0 <= i < |days| && days[i] in Held(bookings[ref], roomNum)) ==> b
      ensures Exact(View()) ==> b ==>
        exists ref, i :: ref in bookings && 0 <= i < |days| && days[i] in Held(bookings[ref], roomNum)
    {
      QueryReflectsBookings(View(), days, roomNum);
      Availability.RoomBooked(roomBookings, days, roomNum)
    }

    /** `roomsBooked`: some listed room is booked on one of `days`. */
    function RoomsBooked(days: seq<int>, rooms: seq<int>): (b: bool)
      reads this
      requires Valid()
      ensures b <==> exists j :: 0 <= j < |rooms| && RoomBooked(days, rooms[j])
      ensures rooms == [] ==> !b
    {
      Availability.RoomsBooked(roomBookings, days, rooms)
    }

    /** `bookRooms`: all or nothing; see Ledger.BookStep. */
    method BookRooms(ref: string, days: seq<int>, rooms: seq<int>) returns (ok: bool)
      requires Valid()
      modifies this
      ensures Valid()
      ensures Step(View(), ok) == BookStep(old(View()), ref, days, rooms)
    {
      ghost var s0 := View();
      BookKeepsWellFormed(s0, ref, days, rooms);

      // Check that every listed room exists and is free on every day.
      for i := 0 to |rooms|
        invariant forall j :: 0 <= j < i ==>
          rooms[j] in roomBookings && !Availability.RoomBooked(roomBookings, days, rooms[j])
      {
        if rooms[i] !in roomBookings || Availability.RoomBooked(roomBookings, days, rooms[i]) {
          ok := false;
          return;
        }
      }
      assert AllKnown(s0.roomBookings, rooms) && !Availability.RoomsBooked(s0.roomBookings, days, rooms);

      // Create an entry per room and book the room on every day.
      var list := ClaimRooms(ref, days, rooms);
      bookings := bookings[ref := list];
      ok := true;
    }

    /** Builds one entry per listed room and books each room on every day. */
    method ClaimRooms(ref: string, days: seq<int>, rooms: seq<int>) returns (list: seq<Booking>)
      requires AllKnown(roomBookings, rooms)
      modifies this
      ensures list == NewEntries(ref, days, rooms)
      ensures roomBookings == Claim(old(roomBookings), days, rooms)
      ensures bookings == old(bookings)
    {
      ghost var occ := roomBookings;
      list := [];
      assert rooms[..0] == [];
      ClaimNone(occ, days);
      for i := 0 to |rooms|
        invariant list == NewEntries(ref, days, rooms[..i])
        invariant roomBookings == Claim(occ, days, rooms[..i])
        invariant bookings == old(bookings)
      {
        list := list + [Booking(ref, days, rooms[i])];
        AddDays(rooms[i], days);
        ClaimSnoc(occ, days, rooms[..i], rooms[i]);
        assert rooms[..i + 1] == rooms[..i] + [rooms[i]];
      }
      assert rooms[..|rooms|] == rooms;
    }

    /** `updateBooking`: release, check, then roll back or commit; see
        Ledger.UpdateStep. */
    method UpdateBooking(ref: string, days: seq<int>, rooms: seq<int>) returns (r: Result<bool>)
      requires Valid()
      modifies this
      ensures Valid()
      ensures Step(View(), r) == UpdateStep(old(View()), ref, days, rooms)
    {
      ghost var s0 := View();
      UpdateKeepsWellFormed(s0, ref, days, rooms);
      if ref !in bookings {
        r := NoSuchBooking(ref);
        return;
      }
      var current := bookings[ref];

      // Temporarily free the booking's days.
      ReleaseEntries(current);
      ghost var freed := roomBookings;

      // Check the new days against the listed rooms; on a clash put the days back.
      for i := 0 to |rooms|
        invariant roomBookings == freed && bookings == s0.bookings
        invariant forall j :: 0 <= j < i ==> !Availability.RoomBooked(freed, days, rooms[j])
      {
        if Availability.RoomBooked(roomBookings, days, rooms[i]) {
          RestoreEntries(current);
          r := Ok(false);
          return;
        }
      }

      // Commit: every existing entry gets the new days, and its room is booked on them.
      RedateEntries(ref, days);
      r := Ok(true);
    }

    /** `cancelBooking`: drop the reference and free its days; see Ledger.CancelStep. */
    method CancelBooking(ref: string) returns (r: Result<()>)
      requires Valid()
      modifies this
      ensures Valid()
      ensures Step(View(), r) == CancelStep(old(View()), ref)
    {
      if ref !in bookings {
        r := NoSuchBooking(ref);
        return;
      }
      var list := bookings[ref];
      bookings := bookings - {ref};
      ReleaseEntries(list);
      r := Ok(());
    }

    /** Takes, entry by entry, the days of `es` off their rooms. */
    method ReleaseEntries(es: seq<Booking>)
      requires forall i :: 0 <= i < |es| ==> es[i].roomNum in roomBookings
      modifies this
      ensures roomBookings == Release(old(roomBookings), es)
      ensures bookings == old(bookings)
    {
      ghost var occ := roomBookings;
      assert es[..0] == [];
      ReleaseNone(occ);
      for i := 0 to |es|
        invariant roomBookings == Release(occ, es[..i])
        invariant bookings == old(bookings)
      {
        RemoveDays(es[i].roomNum, es[i].days);
        ReleaseSnoc(occ, es[..i], es[i]);
        assert es[..i + 1] == es[..i] + [es[i]];
      }
      assert es[..|es|] == es;
    }

    /** Puts, entry by entry, the days of `es` back on their rooms. */
    method RestoreEntries(es: seq<Booking>)
      requires forall i :: 0 <= i < |es| ==> es[i].roomNum in roomBookings
      modifies this
      ensures roomBookings == Restore(old(roomBookings), es)
      ensures bookings == old(bookings)
    {
      ghost var occ := roomBookings;
      assert es[..0] == [];
      RestoreNone(occ);
      for i := 0 to |es|
        invariant roomBookings == Restore(occ, es[..i])
        invariant bookings == old(bookings)
      {
        AddDays(es[i].roomNum, es[i].days);
        RestoreSnoc(occ, es[..i], es[i]);
        assert es[..i + 1] == es[..i] + [es[i]];
      }
      assert es[..|es|] == es;
    }

    /** Sets the days of every entry of `ref` to `days`, and books each entry's room
        on them; the entries keep their rooms. */
    method RedateEntries(ref: string, days: seq<int>)
      requires ref in bookings
      requires forall i :: 0 <= i < |bookings[ref]| ==> bookings[ref][i].roomNum in roomBookings
      modifies this
      ensures roomBookings == Claim(old(roomBookings), days, RoomsOf(old(bookings)[ref]))
      ensures bookings == old(bookings)[ref := Redate(old(bookings)[ref], days)]
    {
      ghost var occ := roomBookings;
      var current := bookings[ref];
      var redated := current;
      assert RoomsOf(current[..0]) == [];
      ClaimNone(occ, days);
      for i := 0 to |current|
        invariant roomBookings == Claim(occ, days, RoomsOf(current[..i]))
        invariant redated == Redate(current[..i], days) + current[i..]
        invariant bookings == old(bookings)
      {
        redated := redated[i := redated[i].(days := days)];
        AddDays(current[i].roomNum, days);
        ClaimSnoc(occ, days, RoomsOf(current[..i]), current[i].roomNum);
        RedateNext(current, days, i);
      }
      assert current[..|current|] == current && current[|current|..] == [];
      assert redated == Redate(current, days);
      bookings := bookings[ref := redated];
    }

    /** Adds each of `days` to the set of `room`, one at a time. */
    method AddDays(room: int, days: seq<int>)
      requires room in roomBookings
      modifies this
      ensures roomBookings == old(roomBookings)[room := old(roomBookings)[room] + DaySet(days)]
      ensures bookings == old(bookings)
    {
      var booked := roomBookings[room];
      for k := 0 to |days|
        invariant booked == old(roomBookings)[room] + DaySet(days[..k])
      {
        booked := booked + {days[k]};
        assert DaySet(days[..k + 1]) == DaySet(days[..k]) + {days[k]} by {
          assert days[..k + 1] == days[..k] + [days[k]];
        }
      }
      assert days[..|days|] == days;
      roomBookings := roomBookings[room := booked];
    }

    /** Removes each of `days` from the set of `room`, one at a time. */
    method RemoveDays(room: int, days: seq<int>)
      requires room in roomBookings
      modifies this
      ensures roomBookings == old(roomBookings)[room := old(roomBookings)[room] - DaySet(days)]
      ensures bookings == old(bookings)
    {
      var booked := roomBookings[room];
      for k := 0 to |days|
        invariant booked == old(roomBookings)[room] - DaySet(days[..k])
      {
        booked := booked - {days[k]};
        assert DaySet(days[..k + 1]) == DaySet(days[..k]) + {days[k]} by {
          assert days[..k + 1] == days[..k] + [days[k]];
        }
      }
      assert days[..|days|] == days;
      roomBookings := roomBookings[room := booked];
    }
  }
}
