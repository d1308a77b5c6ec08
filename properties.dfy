/**
  What the three write operations do to the relation between the occupancy index
  and the booking index, and what the queries then report.
 */
module LedgerProperties {
  import opened Availability
  import opened Ledger

  // ---------------------------------------------------------------------------
  // bookRooms

  /** The listed rooms of a successful booking were known and free on every day. */
  lemma BookedRoomsWereFree(s: State, ref: string, days: seq<int>, rooms: seq<int>, room: int)
    requires BookStep(s, ref, days, rooms).out && room in rooms
    ensures room in s.roomBookings && DaySet(days) !! s.roomBookings[room]
  {
    var j :| 0 <= j < |rooms| && rooms[j] == room;
  }

  /** A booking keeps every entry on a known room and tagged with its reference. */
  lemma BookKeepsWellFormed(s: State, ref: string, days: seq<int>, rooms: seq<int>)
    requires WellFormed(s)
    ensures WellFormed(BookStep(s, ref, days, rooms).next)
  {
    var r := BookStep(s, ref, days, rooms);
    if r.out {
      forall j | 0 <= j < |rooms| ensures rooms[j] in s.roomBookings {
        BookedRoomsWereFree(s, ref, days, rooms, rooms[j]);
      }
    }
  }

  /** A booking keeps the entries consistent with the occupancy, whether or not
      `ref` was already in use: it only adds days. */
  lemma BookKeepsConsistent(s: State, ref: string, days: seq<int>, rooms: seq<int>)
    requires Consistent(s)
    ensures Consistent(BookStep(s, ref, days, rooms).next)
  {
    var r := BookStep(s, ref, days, rooms);
    if r.out {
      var n := r.next;
      forall ref', room | ref' in n.bookings && room in n.roomBookings
        ensures Held(n.bookings[ref'], room) <= n.roomBookings[room]
      {
        if ref' == ref {
          NewEntriesHeld(ref, days, rooms, room);
        } else {
          assert n.bookings[ref'] == s.bookings[ref'];
        }
      }
    }
  }

  /** A booking creates no double booking, whether or not `ref` was already in use:
      the new entries hold only days that were free in their rooms. */
  lemma BookKeepsNoDoubleBooking(s: State, ref: string, days: seq<int>, rooms: seq<int>)
    requires RoomsKnown(s) && Consistent(s) && NoDoubleBooking(s)
    ensures NoDoubleBooking(BookStep(s, ref, days, rooms).next)
  {
    var r := BookStep(s, ref, days, rooms);
    if r.out {
      var n := r.next;
      forall r1, r2, room | r1 in n.bookings && r2 in n.bookings && r1 != r2
        ensures Held(n.bookings[r1], room) !! Held(n.bookings[r2], room)
      {
        if r1 == ref || r2 == ref {
          var other := if r1 == ref then r2 else r1;
          assert n.bookings[other] == s.bookings[other];
          NewEntriesHeld(ref, days, rooms, room);
          if room in rooms {
            BookedRoomsWereFree(s, ref, days, rooms, room);
          }
        } else {
          assert n.bookings[r1] == s.bookings[r1] && n.bookings[r2] == s.bookings[r2];
        }
      }
    }
  }

  /** With a fresh `ref`, every occupied day is still accounted for by a booking. */
  lemma BookFreshKeepsExact(s: State, ref: string, days: seq<int>, rooms: seq<int>)
    requires Exact(s) && ref !in s.bookings
    ensures Exact(BookStep(s, ref, days, rooms).next)
  {
    var r := BookStep(s, ref, days, rooms);
    if r.out {
      var n := r.next;
      forall room, d | room in n.roomBookings && d in n.roomBookings[room]
        ensures exists ref' :: ref' in n.bookings && d in Held(n.bookings[ref'], room)
      {
        if d in s.roomBookings[room] {
          var ref' :| ref' in s.bookings && d in Held(s.bookings[ref'], room);
          assert n.bookings[ref'] == s.bookings[ref'];
        } else {
          NewEntriesHeld(ref, days, rooms, room);
          assert d in Held(n.bookings[ref], room);
        }
      }
    }
  }

  /** Reusing a live reference overwrites its entries and leaves the days they held
      booked with no booking holding them: room 1 stays booked on day 5 for good. */
  lemma BookReusedRefLeaks()
    ensures var s := State(map[1 := {5}], map["A" := [Booking("A", [5], 1)]]);
      var r := BookStep(s, "A", [6], [1]);
      && WellFormed(s) && Consistent(s) && NoDoubleBooking(s) && Exact(s)
      && r.out && 5 in r.next.roomBookings[1] && !Exact(r.next)
  {
    var s := State(map[1 := {5}], map["A" := [Booking("A", [5], 1)]]);
    var held := [Booking("A", [5], 1)];
    assert held[..0] == [];
    assert Held(held, 1) == {5};
    assert Exact(s) by {
      forall room, d | room in s.roomBookings && d in s.roomBookings[room]
        ensures exists ref :: ref in s.bookings && d in Held(s.bookings[ref], room)
      {
        assert d in Held(s.bookings["A"], room);
      }
    }
    var r := BookStep(s, "A", [6], [1]);
    assert !RoomBooked(s.roomBookings, [6], 1);
    assert !RoomsBooked(s.roomBookings, [6], [1]);
    var now := [Booking("A", [6], 1)];
    assert NewEntries("A", [6], [1]) == now;
    assert r.next.bookings == map["A" := now];
    assert now[..0] == [];
    assert Held(now, 1) == {6};
    assert 5 in r.next.roomBookings[1];
  }

  // ---------------------------------------------------------------------------
  // updateBooking

  /** A refused update puts back exactly what it released: the state is as before. */
  lemma UpdateRefusedRestores(s: State, ref: string, days: seq<int>, rooms: seq<int>)
    requires RoomsKnown(s) && Consistent(s)
    ensures var r := UpdateStep(s, ref, days, rooms);
      r.out == Ok(false) ==> r.next == s
  {
    if ref in s.bookings {
      RestoreRelease(s.roomBookings, s.bookings[ref]);
    }
  }

  /** A successful update keeps the booking's entries and their rooms and gives each
      entry the new days; every other booking is left alone. */
  lemma UpdateKeepsRooms(s: State, ref: string, days: seq<int>, rooms: seq<int>)
    requires RoomsKnown(s)
    ensures var r := UpdateStep(s, ref, days, rooms);
      r.out == Ok(true) ==>
        && RoomsOf(r.next.bookings[ref]) == RoomsOf(s.bookings[ref])
        && (forall i :: 0 <= i < |r.next.bookings[ref]| ==>
              r.next.bookings[ref][i].days == days &&
              r.next.bookings[ref][i].bookingRef == s.bookings[ref][i].bookingRef)
        && (forall ref' :: ref' in s.bookings && ref' != ref ==> r.next.bookings[ref'] == s.bookings[ref'])
  {
    if UpdateStep(s, ref, days, rooms).out == Ok(true) {
      UpdateCommitted(s, ref, days, rooms);
      var es := s.bookings[ref];
      assert RoomsOf(Redate(es, days)) == RoomsOf(es);
    }
  }

  /** After a successful update the booking holds exactly its old rooms on the new
      days, and every room it does not hold, listed in `rooms` or not, is exactly as
      it was: the update never moves a booking to another room. */
  lemma UpdateHoldsOldRoomsOnNewDays(s: State, ref: string, days: seq<int>, rooms: seq<int>, room: int)
    requires RoomsKnown(s)
    ensures var r := UpdateStep(s, ref, days, rooms);
      r.out == Ok(true) ==>
        && Held(r.next.bookings[ref], room) == (if room in RoomsOf(s.bookings[ref]) then DaySet(days) else {})
        && (room in s.roomBookings && room !in RoomsOf(s.bookings[ref]) ==>
              r.next.roomBookings[room] == s.roomBookings[room])
  {
    if UpdateStep(s, ref, days, rooms).out == Ok(true) {
      UpdateCommitted(s, ref, days, rooms);
      var es := s.bookings[ref];
      RedateHeld(es, days, room);
      if room !in RoomsOf(es) {
        HeldOutsideRooms(es, room);
      }
    }
  }

  /** An update keeps every entry on a known room and tagged with its reference. */
  lemma UpdateKeepsWellFormed(s: State, ref: string, days: seq<int>, rooms: seq<int>)
    requires WellFormed(s)
    ensures WellFormed(UpdateStep(s, ref, days, rooms).next)
  {
    var r := UpdateStep(s, ref, days, rooms);
    if r.out == Ok(true) {
      UpdateCommitted(s, ref, days, rooms);
    }
  }

  /** Given no double booking before, an update leaves the entries consistent with
      the occupancy: releasing the booking's days frees no day of another booking. */
  lemma UpdateKeepsConsistent(s: State, ref: string, days: seq<int>, rooms: seq<int>)
    requires RoomsKnown(s) && Consistent(s) && NoDoubleBooking(s)
    ensures Consistent(UpdateStep(s, ref, days, rooms).next)
  {
    var r := UpdateStep(s, ref, days, rooms);
    UpdateRefusedRestores(s, ref, days, rooms);
    if r.out == Ok(true) {
      UpdateCommitted(s, ref, days, rooms);
      var es := s.bookings[ref];
      var n := State(Claim(Release(s.roomBookings, es), days, RoomsOf(es)), s.bookings[ref := Redate(es, days)]);
      forall ref', room | ref' in n.bookings && room in n.roomBookings
        ensures Held(n.bookings[ref'], room) <= n.roomBookings[room]
      {
        if ref' == ref {
          RedateHeld(es, days, room);
        } else {
          assert n.bookings[ref'] == s.bookings[ref'];
          assert Held(s.bookings[ref'], room) !! Held(es, room);
        }
      }
      assert r.next == n;
    }
  }

  /** An update whose listed rooms include every room the booking holds creates no
      double booking: each held room was checked against the new days. */
  lemma UpdateWithinRoomsKeepsNoDoubleBooking(s: State, ref: string, days: seq<int>, rooms: seq<int>)
    requires RoomsKnown(s) && Consistent(s) && NoDoubleBooking(s)
    requires forall i :: ref in s.bookings && 0 <= i < |s.bookings[ref]| ==> s.bookings[ref][i].roomNum in rooms
    ensures NoDoubleBooking(UpdateStep(s, ref, days, rooms).next)
  {
    var r := UpdateStep(s, ref, days, rooms);
    UpdateRefusedRestores(s, ref, days, rooms);
    if r.out == Ok(true) {
      UpdateCommitted(s, ref, days, rooms);
      var es := s.bookings[ref];
      var freed := Release(s.roomBookings, es);
      var n := State(Claim(freed, days, RoomsOf(es)), s.bookings[ref := Redate(es, days)]);
      forall r1, r2, room | r1 in n.bookings && r2 in n.bookings && r1 != r2
        ensures Held(n.bookings[r1], room) !! Held(n.bookings[r2], room)
      {
        if r1 == ref || r2 == ref {
          var other := if r1 == ref then r2 else r1;
          assert n.bookings[other] == s.bookings[other];
          RedateHeld(es, days, room);
          if room in RoomsOf(es) {
            NewDaysFreeInHeldRoom(s, ref, days, rooms, room);
            assert Held(s.bookings[other], room) <= freed[room] by {
              assert Held(s.bookings[other], room) !! Held(es, room);
            }
          }
        } else {
          assert n.bookings[r1] == s.bookings[r1] && n.bookings[r2] == s.bookings[r2];
        }
      }
      assert r.next == n;
    }
  }

  /** A room the booking holds and the update lists was free on the new days once
      the booking's own days were released. */
  lemma NewDaysFreeInHeldRoom(s: State, ref: string, days: seq<int>, rooms: seq<int>, room: int)
    requires RoomsKnown(s) && UpdateStep(s, ref, days, rooms).out == Ok(true)
    requires forall i :: ref in s.bookings && 0 <= i < |s.bookings[ref]| ==> s.bookings[ref][i].roomNum in rooms
    requires ref in s.bookings && room in RoomsOf(s.bookings[ref])
    ensures room in s.roomBookings && DaySet(days) !! Release(s.roomBookings, s.bookings[ref])[room]
  {
    UpdateCommitted(s, ref, days, rooms);
    var es := s.bookings[ref];
    var i :| 0 <= i < |es| && RoomsOf(es)[i] == room;
    assert es[i].roomNum == room;
    var j :| 0 <= j < |rooms| && rooms[j] == room;
    assert !RoomBooked(Release(s.roomBookings, es), days, rooms[j]);
  }

  /** Two bookings in room 1, "A" on day 5 and "B" on day 6, room 2 free: a state
      that satisfies every invariant. */
  lemma TwoBookingsInRoomOne()
    ensures var s := State(map[1 := {5, 6}, 2 := {}],
                           map["A" := [Booking("A", [5], 1)], "B" := [Booking("B", [6], 1)]]);
      WellFormed(s) && Consistent(s) && NoDoubleBooking(s) && Exact(s)
  {
    var a, b := [Booking("A", [5], 1)], [Booking("B", [6], 1)];
    var s := State(map[1 := {5, 6}, 2 := {}], map["A" := a, "B" := b]);
    HeldOne(a[0], 1);
    HeldOne(b[0], 1);
    HeldOne(a[0], 2);
    HeldOne(b[0], 2);
    assert WellFormed(s);
    assert Consistent(s);
    forall r1, r2, room | r1 in s.bookings && r2 in s.bookings && r1 != r2
      ensures Held(s.bookings[r1], room) !! Held(s.bookings[r2], room)
    {
      HeldOne(a[0], room);
      HeldOne(b[0], room);
    }
    assert Exact(s) by {
      forall room, d | room in s.roomBookings && d in s.roomBookings[room]
        ensures exists ref :: ref in s.bookings && d in Held(s.bookings[ref], room)
      {
        if d == 5 {
          assert d in Held(s.bookings["A"], room);
        } else {
          assert d in Held(s.bookings["B"], room);
        }
      }
    }
  }

  /** Without that condition an update can double-book: from the state of
      TwoBookingsInRoomOne, moving
      "A" to room 2 on day 6 passes the check on room 2, leaves room 2 free, and books
      A's own room 1 on day 6, which "B" holds. */
  lemma UpdateCanDoubleBook()
    ensures var s := State(map[1 := {5, 6}, 2 := {}],
                           map["A" := [Booking("A", [5], 1)], "B" := [Booking("B", [6], 1)]]);
      var r := UpdateStep(s, "A", [6], [2]);
      && RoomsKnown(s) && r.out == Ok(true)
      && r.next.roomBookings[2] == {}
      && 6 in Held(r.next.bookings["A"], 1) && 6 in Held(r.next.bookings["B"], 1)
      && !NoDoubleBooking(r.next)
  {
    var a, b := [Booking("A", [5], 1)], [Booking("B", [6], 1)];
    var occ := map[1 := {5, 6}, 2 := {}];
    var s := State(occ, map["A" := a, "B" := b]);
    assert a[..0] == [] && b[..0] == [];
    var freed := Release(occ, a);
    HeldOne(a[0], 1);
    HeldOne(a[0], 2);
    assert freed[1] == {6} && freed[2] == {};
    assert !RoomBooked(freed, [6], 2);
    assert !RoomsBooked(freed, [6], [2]);
    var r := UpdateStep(s, "A", [6], [2]);
    assert r.out == Ok(true);
    UpdateCommitted(s, "A", [6], [2]);
    var a' := [Booking("A", [6], 1)];
    assert Redate(a, [6]) == a';
    assert RoomsOf(a) == [1];
    assert r.next.roomBookings[2] == {};
    assert r.next.bookings["A"] == a' && r.next.bookings["B"] == b;
    HeldOne(a'[0], 1);
    HeldOne(b[0], 1);
    assert Held(a', 1) == {6} && Held(b, 1) == {6};
  }

  /** An update leaves every occupied day accounted for by some booking. */
  lemma UpdateKeepsExact(s: State, ref: string, days: seq<int>, rooms: seq<int>)
    requires RoomsKnown(s) && Exact(s)
    ensures Exact(UpdateStep(s, ref, days, rooms).next)
  {
    var r := UpdateStep(s, ref, days, rooms);
    if ref in s.bookings {
      var es := s.bookings[ref];
      var n := r.next;
      forall room, d | room in n.roomBookings && d in n.roomBookings[room]
        ensures exists ref' :: ref' in n.bookings && d in Held(n.bookings[ref'], room)
      {
        if d in Held(es, room) && r.out == Ok(false) {
          assert d in Held(n.bookings[ref], room);
        } else if d in s.roomBookings[room] && d !in Held(es, room) {
          var ref' :| ref' in s.bookings && d in Held(s.bookings[ref'], room);
          assert n.bookings[ref'] == s.bookings[ref'];
        } else {
          RedateHeld(es, days, room);
          assert d in Held(n.bookings[ref], room);
        }
      }
    }
  }

  // ---------------------------------------------------------------------------
  // cancelBooking

  /** A cancellation keeps the entries on known rooms, consistent and free of double
      booking. */
  lemma CancelKeepsInvariants(s: State, ref: string)
    requires WellFormed(s) && Consistent(s) && NoDoubleBooking(s)
    ensures var n := CancelStep(s, ref).next;
      WellFormed(n) && Consistent(n) && NoDoubleBooking(n)
  {
    var r := CancelStep(s, ref);
    if ref in s.bookings {
      var n := r.next;
      forall ref', room | ref' in n.bookings && room in n.roomBookings
        ensures Held(n.bookings[ref'], room) <= n.roomBookings[room]
      {
        assert Held(s.bookings[ref'], room) !! Held(s.bookings[ref], room);
      }
    }
  }

  lemma CancelKeepsExact(s: State, ref: string)
    requires RoomsKnown(s) && Exact(s)
    ensures Exact(CancelStep(s, ref).next)
  {
    var r := CancelStep(s, ref);
    if ref in s.bookings {
      var n := r.next;
      forall room, d | room in n.roomBookings && d in n.roomBookings[room]
        ensures exists ref' :: ref' in n.bookings && d in Held(n.bookings[ref'], room)
      {
        assert d in s.roomBookings[room] && d !in Held(s.bookings[ref], room);
        var ref' :| ref' in s.bookings && d in Held(s.bookings[ref'], room);
        assert ref' != ref && n.bookings[ref'] == s.bookings[ref'];
      }
    }
  }

  /** After a cancellation the reference is free again and no room is booked on a
      day the cancelled booking held there. */
  lemma CancelFreesItsDays(s: State, ref: string)
    requires RoomsKnown(s) && ref in s.bookings
    ensures var n := CancelStep(s, ref).next;
      && ref !in n.bookings
      && forall room, d :: d in Held(s.bookings[ref], room) ==> !RoomBooked(n.roomBookings, [d], room)
  {
    var n := CancelStep(s, ref).next;
    forall room, d | d in Held(s.bookings[ref], room) ensures !RoomBooked(n.roomBookings, [d], room) {
      if room in n.roomBookings {
        assert n.roomBookings[room] == s.roomBookings[room] - Held(s.bookings[ref], room);
      }
    }
  }

  /** Cancelling a booking just made under a fresh reference gives back the state
      before it: the booked days were free, so releasing them restores every room. */
  lemma CancelUndoesFreshBook(s: State, ref: string, days: seq<int>, rooms: seq<int>)
    requires RoomsKnown(s) && ref !in s.bookings
    requires BookStep(s, ref, days, rooms).out
    ensures var n := BookStep(s, ref, days, rooms).next;
      RoomsKnown(n) && CancelStep(n, ref) == Step(s, Ok(()))
  {
    var n := BookStep(s, ref, days, rooms).next;
    var es := NewEntries(ref, days, rooms);
    var occ := s.roomBookings;
    var back := Release(Claim(occ, days, rooms), es);
    assert back.Keys == occ.Keys;
    forall room | room in occ ensures back[room] == occ[room] {
      NewEntriesHeld(ref, days, rooms, room);
      if room in rooms {
        var j :| 0 <= j < |rooms| && rooms[j] == room;
        assert DaySet(days) !! occ[room];
      }
    }
    assert n.bookings - {ref} == s.bookings;
  }

  // ---------------------------------------------------------------------------
  // Queries

  /** `roomBooked` reports a booking's days: with consistent indexes a held day makes
      the room booked, and with exact indexes a booked day is held by some booking. */
  lemma QueryReflectsBookings(s: State, days: seq<int>, room: int)
    requires RoomsKnown(s)
    ensures Consistent(s) ==>
      ((exists ref, i :: ref in s.bookings && 0 <= i < |days| && days[i] in Held(s.bookings[ref], room)) ==>
         RoomBooked(s.roomBookings, days, room))
    ensures Exact(s) ==>
      (RoomBooked(s.roomBookings, days, room) ==>
         exists ref, i :: ref in s.bookings && 0 <= i < |days| && days[i] in Held(s.bookings[ref], room))
  {
    if Consistent(s) && exists ref, i :: ref in s.bookings && 0 <= i < |days| && days[i] in Held(s.bookings[ref], room) {
      var ref, i :| ref in s.bookings && 0 <= i < |days| && days[i] in Held(s.bookings[ref], room);
      if room !in s.roomBookings {
        HeldOnlyKnown(s, ref, room);
      }
    }
    if Exact(s) && RoomBooked(s.roomBookings, days, room) {
      assert room in s.roomBookings;
      var i :| 0 <= i < |days| && days[i] in s.roomBookings[room];
      var d := days[i];
      assert room in s.roomBookings && d in s.roomBookings[room];
      assert exists ref :: ref in s.bookings && d in Held(s.bookings[ref], room);
      var ref :| ref in s.bookings && days[i] in Held(s.bookings[ref], room);
    }
  }
}
