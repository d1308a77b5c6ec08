/**
  The booking engine's state as a value, one step function per write operation,
  and the invariants relating the two indexes.

  The state is a pair of maps: the occupancy index (room number to the set of days
  on which it is booked) and the booking index (booking reference to the list of
  `Booking` entries made under it, one per room). Each public operation of the hotel
  runs under one lock acquisition, so each is one atomic step from a `State` to a
  `State`; the step functions here say what that step is, and the class in
  module HotelEngine is proved to take exactly that step.
 */
module Ledger {
  import opened Availability

  /** One entry of a booking: the reference, the days, and the one room it holds. */
  datatype Booking = Booking(bookingRef: string, days: seq<int>, roomNum: int)

  /** The outcome of an operation that can fail with `NoSuchBookingException`. */
  datatype Result<T> = Ok(value: T) | NoSuchBooking(ref: string)

  type Occupancy = map<int, set<int>>
  type Index = map<string, seq<Booking>>

  datatype State = State(roomBookings: Occupancy, bookings: Index)

  /** The state after an operation and what the operation returned. */
  datatype Step<T> = Step(next: State, out: T)

  function DaySet(days: seq<int>): set<int> {
    set d | d in days
  }

  /** The days that the entries `es` hold in `room`. */
  function Held(es: seq<Booking>, room: int): set<int> {
    if es == [] then {}
    else
      var last := es[|es| - 1];
      Held(es[..|es| - 1], room) + (if last.roomNum == room then DaySet(last.days) else {})
  }

  /** The rooms of the entries, in entry order. */
  function RoomsOf(es: seq<Booking>): seq<int> {
    seq(|es|, i requires 0 <= i < |es| => es[i].roomNum)
  }

  /** The list `bookRooms` stores: one entry per listed room, in list order. */
  function NewEntries(ref: string, days: seq<int>, rooms: seq<int>): seq<Booking> {
    seq(|rooms|, i requires 0 <= i < |rooms| => Booking(ref, days, rooms[i]))
  }

  /** The same entries with their days replaced, as `updateBooking` commits them. */
  function Redate(es: seq<Booking>, days: seq<int>): seq<Booking> {
    seq(|es|, i requires 0 <= i < |es| => es[i].(days := days))
  }

  /** Every listed room gains `days`; the other rooms keep their sets. */
  function Claim(occ: Occupancy, days: seq<int>, rooms: seq<int>): Occupancy {
    map room | room in occ :: if room in rooms then occ[room] + DaySet(days) else occ[room]
  }

  /** Every room loses the days the entries hold in it. */
  function Release(occ: Occupancy, es: seq<Booking>): Occupancy {
    map room | room in occ :: occ[room] - Held(es, room)
  }

  /** Every room gets back the days the entries hold in it. */
  function Restore(occ: Occupancy, es: seq<Booking>): Occupancy {
    map room | room in occ :: occ[room] + Held(es, room)
  }

  predicate AllKnown(occ: Occupancy, rooms: seq<int>) {
    forall j :: 0 <= j < |rooms| ==> rooms[j] in occ
  }

  /** Every stored entry's room is a known room: the lookups of the update and
      cancel loops never find a missing room. */
  ghost predicate RoomsKnown(s: State) {
    forall ref, i :: ref in s.bookings && 0 <= i < |s.bookings[ref]| ==>
      s.bookings[ref][i].roomNum in s.roomBookings
  }

  /** Every stored entry carries the reference it is stored under. */
  ghost predicate Tagged(s: State) {
    forall ref, i :: ref in s.bookings && 0 <= i < |s.bookings[ref]| ==>
      s.bookings[ref][i].bookingRef == ref
  }

  ghost predicate WellFormed(s: State) {
    RoomsKnown(s) && Tagged(s)
  }

  /** Every day a booking holds in a room is in that room's occupancy set. */
  ghost predicate Consistent(s: State) {
    forall ref, room :: ref in s.bookings && room in s.roomBookings ==>
      Held(s.bookings[ref], room) <= s.roomBookings[room]
  }

  /** No room and day is held by two different references. */
  ghost predicate NoDoubleBooking(s: State) {
    forall r1, r2, room :: r1 in s.bookings && r2 in s.bookings && r1 != r2 ==>
      Held(s.bookings[r1], room) !! Held(s.bookings[r2], room)
  }

  /** Every occupied room and day is held by some booking (nothing leaks). */
  ghost predicate Exact(s: State) {
    forall room, d :: room in s.roomBookings && d in s.roomBookings[room] ==>
      exists ref :: ref in s.bookings && d in Held(s.bookings[ref], room)
  }

  // ---------------------------------------------------------------------------
  // The operations as steps

  /** `bookRooms`: all or nothing. Refuses when a listed room is unknown or already
      booked on one of `days`; otherwise books every listed room on every day and
      stores the entries under `ref`, replacing whatever `ref` held before. */
  function BookStep(s: State, ref: string, days: seq<int>, rooms: seq<int>): (r: Step<bool>)
    ensures r.out <==> forall j :: 0 <= j < |rooms| ==>
      rooms[j] in s.roomBookings && forall i :: 0 <= i < |days| ==> days[i] !in s.roomBookings[rooms[j]]
    ensures !r.out ==> r.next == s
    ensures r.next.roomBookings.Keys == s.roomBookings.Keys
  {
    if AllKnown(s.roomBookings, rooms) && !RoomsBooked(s.roomBookings, days, rooms) then
      Step(State(Claim(s.roomBookings, days, rooms), s.bookings[ref := NewEntries(ref, days, rooms)]), true)
    else
      Step(s, false)
  }

  /** `updateBooking`: release the booking's days, check the new days against the
      listed rooms, then either put the released days back and refuse, or give
      every EXISTING entry the new days and book its room on them. The listed rooms
      are only checked; the booking keeps its rooms. */
  function UpdateStep(s: State, ref: string, days: seq<int>, rooms: seq<int>): (r: Step<Result<bool>>)
    requires RoomsKnown(s)
    ensures r.out.NoSuchBooking? <==> ref !in s.bookings
    ensures r.out.NoSuchBooking? ==> r.out.ref == ref && r.next == s
    ensures r.out == Ok(false) ==> r.next.bookings == s.bookings
    ensures r.next.roomBookings.Keys == s.roomBookings.Keys
    ensures r.next.bookings.Keys == s.bookings.Keys
  {
    if ref !in s.bookings then Step(s, NoSuchBooking(ref))
    else
      var current := s.bookings[ref];
      var freed := Release(s.roomBookings, current);
      if RoomsBooked(freed, days, rooms) then
        Step(State(Restore(freed, current), s.bookings), Ok(false))
      else
        Step(State(Claim(freed, days, RoomsOf(current)), s.bookings[ref := Redate(current, days)]), Ok(true))
  }

  /** `cancelBooking`: drop `ref` and release every day its entries hold. */
  function CancelStep(s: State, ref: string): (r: Step<Result<()>>)
    requires RoomsKnown(s)
    ensures r.out.NoSuchBooking? <==> ref !in s.bookings
    ensures r.out.NoSuchBooking? ==> r.out.ref == ref && r.next == s
    ensures r.next.roomBookings.Keys == s.roomBookings.Keys
    ensures r.next.bookings.Keys == s.bookings.Keys - {ref}
  {
    if ref !in s.bookings then Step(s, NoSuchBooking(ref))
    else Step(State(Release(s.roomBookings, s.bookings[ref]), s.bookings - {ref}), Ok(()))
  }

  /** What a successful update committed, spelled out. */
  lemma UpdateCommitted(s: State, ref: string, days: seq<int>, rooms: seq<int>)
    requires RoomsKnown(s) && UpdateStep(s, ref, days, rooms).out == Ok(true)
    ensures ref in s.bookings
    ensures !RoomsBooked(Release(s.roomBookings, s.bookings[ref]), days, rooms)
    ensures UpdateStep(s, ref, days, rooms).next ==
      State(Claim(Release(s.roomBookings, s.bookings[ref]), days, RoomsOf(s.bookings[ref])),
            s.bookings[ref := Redate(s.bookings[ref], days)])
  {
  }

  // ---------------------------------------------------------------------------
  // Facts about Held

  lemma HeldSnoc(es: seq<Booking>, e: Booking, room: int)
    ensures Held(es + [e], room) == Held(es, room) + (if e.roomNum == room then DaySet(e.days) else {})
  {
    assert (es + [e])[..|es|] == es;
  }

  /** A single entry with a single day holds that day in its room and nothing else. */
  lemma HeldOne(e: Booking, room: int)
    requires |e.days| == 1
    ensures Held([e], room) == if e.roomNum == room then {e.days[0]} else {}
  {
    assert [e][..0] == [];
    assert DaySet(e.days) == {e.days[0]};
  }

  /** A day is held in a room iff some entry for that room lists the day. */
  lemma {:induction false} HeldMeans(es: seq<Booking>, room: int, d: int)
    ensures d in Held(es, room) <==> exists i :: 0 <= i < |es| && es[i].roomNum == room && d in es[i].days
  {
    if es != [] {
      var init := es[..|es| - 1];
      HeldMeans(init, room, d);
      if d in Held(init, room) {
        var i :| 0 <= i < |init| && init[i].roomNum == room && d in init[i].days;
        assert es[i] == init[i];
      }
      if exists i :: 0 <= i < |es| && es[i].roomNum == room && d in es[i].days {
        var i :| 0 <= i < |es| && es[i].roomNum == room && d in es[i].days;
        if i < |init| {
          assert init[i] == es[i];
        }
      }
    }
  }

  /** Entries that all carry the same days hold exactly those days in each of their rooms. */
  lemma {:induction false} HeldUniform(es: seq<Booking>, days: seq<int>, room: int)
    requires forall i :: 0 <= i < |es| ==> es[i].days == days
    ensures Held(es, room) == if room in RoomsOf(es) then DaySet(days) else {}
  {
    if es != [] {
      var init := es[..|es| - 1];
      HeldUniform(init, days, room);
      assert RoomsOf(es) == RoomsOf(init) + [es[|es| - 1].roomNum];
    }
  }

  /** Entries none of which is for `room` hold nothing in it. */
  lemma {:induction false} HeldOutsideRooms(es: seq<Booking>, room: int)
    requires room !in RoomsOf(es)
    ensures Held(es, room) == {}
  {
    if es != [] {
      var init := es[..|es| - 1];
      assert RoomsOf(es) == RoomsOf(init) + [es[|es| - 1].roomNum];
      HeldOutsideRooms(init, room);
    }
  }

  lemma NewEntriesHeld(ref: string, days: seq<int>, rooms: seq<int>, room: int)
    ensures Held(NewEntries(ref, days, rooms), room) == if room in rooms then DaySet(days) else {}
  {
    var es := NewEntries(ref, days, rooms);
    HeldUniform(es, days, room);
    assert RoomsOf(es) == rooms;
  }

  lemma RedateHeld(es: seq<Booking>, days: seq<int>, room: int)
    ensures Held(Redate(es, days), room) == if room in RoomsOf(es) then DaySet(days) else {}
  {
    var es' := Redate(es, days);
    HeldUniform(es', days, room);
    assert RoomsOf(es') == RoomsOf(es);
  }

  /** In a state whose entries name known rooms, nothing is held in an unknown room. */
  lemma HeldOnlyKnown(s: State, ref: string, room: int)
    requires RoomsKnown(s) && ref in s.bookings && room !in s.roomBookings
    ensures Held(s.bookings[ref], room) == {}
  {
    forall d | d in Held(s.bookings[ref], room) ensures false {
      HeldMeans(s.bookings[ref], room, d);
    }
  }

  /** Releasing entries and then restoring them gives back the occupancy, provided
      every day the entries hold is in the occupancy to begin with. */
  lemma RestoreRelease(occ: Occupancy, es: seq<Booking>)
    requires forall room :: room in occ ==> Held(es, room) <= occ[room]
    ensures Restore(Release(occ, es), es) == occ
  {
    var r := Restore(Release(occ, es), es);
    assert r.Keys == occ.Keys;
    forall room | room in occ ensures r[room] == occ[room] {
      assert r[room] == (occ[room] - Held(es, room)) + Held(es, room);
    }
  }

  // ---------------------------------------------------------------------------
  // One-step facts used by the loops of the class

  /** The commit loop of `updateBooking` has redated the first `i` entries. */
  lemma RedateNext(es: seq<Booking>, days: seq<int>, i: int)
    requires 0 <= i < |es|
    ensures RoomsOf(es[..i + 1]) == RoomsOf(es[..i]) + [es[i].roomNum]
    ensures Redate(es[..i + 1], days) + es[i + 1..] == (Redate(es[..i], days) + es[i..])[i := es[i].(days := days)]
  {
  }

  lemma ClaimNone(occ: Occupancy, days: seq<int>)
    ensures Claim(occ, days, []) == occ
  {
  }

  lemma ReleaseNone(occ: Occupancy)
    ensures Release(occ, []) == occ
  {
    forall room | room in occ ensures Release(occ, [])[room] == occ[room] {
      assert Held([], room) == {};
    }
  }

  lemma RestoreNone(occ: Occupancy)
    ensures Restore(occ, []) == occ
  {
    forall room | room in occ ensures Restore(occ, [])[room] == occ[room] {
      assert Held([], room) == {};
    }
  }

  lemma ClaimSnoc(occ: Occupancy, days: seq<int>, rooms: seq<int>, x: int)
    requires x in occ
    ensures Claim(occ, days, rooms + [x]) == Claim(occ, days, rooms)[x := Claim(occ, days, rooms)[x] + DaySet(days)]
  {
    var a := Claim(occ, days, rooms + [x]);
    var b := Claim(occ, days, rooms)[x := Claim(occ, days, rooms)[x] + DaySet(days)];
    assert a.Keys == b.Keys;
    forall room | room in a ensures a[room] == b[room] {
      assert room in rooms + [x] <==> room in rooms || room == x;
    }
  }

  lemma ReleaseSnoc(occ: Occupancy, es: seq<Booking>, e: Booking)
    requires e.roomNum in occ
    ensures Release(occ, es + [e]) == Release(occ, es)[e.roomNum := Release(occ, es)[e.roomNum] - DaySet(e.days)]
  {
    var a := Release(occ, es + [e]);
    var b := Release(occ, es)[e.roomNum := Release(occ, es)[e.roomNum] - DaySet(e.days)];
    assert a.Keys == b.Keys;
    forall room | room in a ensures a[room] == b[room] {
      HeldSnoc(es, e, room);
    }
  }

  lemma RestoreSnoc(occ: Occupancy, es: seq<Booking>, e: Booking)
    requires e.roomNum in occ
    ensures Restore(occ, es + [e]) == Restore(occ, es)[e.roomNum := Restore(occ, es)[e.roomNum] + DaySet(e.days)]
  {
    var a := Restore(occ, es + [e]);
    var b := Restore(occ, es)[e.roomNum := Restore(occ, es)[e.roomNum] + DaySet(e.days)];
    assert a.Keys == b.Keys;
    forall room | room in a ensures a[room] == b[room] {
      HeldSnoc(es, e, room);
    }
  }
}
