/**
  A run of the hotel, one step function at a time, from a freshly built hotel with
  rooms 1 and 2 to a state where the occupancy index has lost a day that a booking
  still holds. Every step is one the hotel's methods take (they are proved to take
  exactly the Ledger steps), so the state is reachable. From it the operations no
  longer keep their promises: a booking and a covering update both give a room and
  day to two references, and a refused update does not restore the occupancy. A
  second, shorter run reuses a live reference and reaches a state that is not exact.
 */
module LedgerTrace {
  import opened Availability
  import opened Ledger

  /** The hotel built with rooms 1 and 2. */
  const Fresh: State := State(map[1 := {}, 2 := {}], map[])

  /** After booking "A" in room 1 on day 5. */
  const AfterA: State := State(map[1 := {5}, 2 := {}], map["A" := [Booking("A", [5], 1)]])

  /** After booking "B" in room 1 on day 6. */
  const AfterB: State :=
    State(map[1 := {5, 6}, 2 := {}], map["A" := [Booking("A", [5], 1)], "B" := [Booking("B", [6], 1)]])

  /** After moving "A" to day 6 with room 2 listed: "A" stays in room 1, on B's day. */
  const AfterMove: State :=
    State(map[1 := {6}, 2 := {}], map["A" := [Booking("A", [6], 1)], "B" := [Booking("B", [6], 1)]])

  /** After cancelling "B": room 1 is free on day 6 although "A" holds it. */
  const Drifted: State := State(map[1 := {}, 2 := {}], map["A" := [Booking("A", [6], 1)]])

  /** From Drifted, after booking "Y" in room 1 on day 3. */
  const WithY: State :=
    State(map[1 := {3}, 2 := {}], map["A" := [Booking("A", [6], 1)], "Y" := [Booking("Y", [3], 1)]])

  /** From AfterA, after booking room 1 on day 6 under "A" again: the entry for day 5
      is gone, but room 1 stays booked on day 5. */
  const Leaked: State := State(map[1 := {5, 6}, 2 := {}], map["A" := [Booking("A", [6], 1)]])

  /** From Drifted, after booking "D" in room 2 on day 9. */
  const WithD: State :=
    State(map[1 := {}, 2 := {9}], map["A" := [Booking("A", [6], 1)], "D" := [Booking("D", [9], 2)]])

  /** Booking a single room touches that room only. */
  lemma ClaimSingle(occ: Occupancy, days: seq<int>, x: int)
    requires x in occ
    ensures Claim(occ, days, [x]) == occ[x := occ[x] + DaySet(days)]
  {
    ClaimNone(occ, days);
    ClaimSnoc(occ, days, [], x);
    assert [] + [x] == [x];
  }

  /** Releasing a single entry touches its room only. */
  lemma ReleaseSingle(occ: Occupancy, e: Booking)
    requires e.roomNum in occ
    ensures Release(occ, [e]) == occ[e.roomNum := occ[e.roomNum] - DaySet(e.days)]
  {
    ReleaseNone(occ);
    ReleaseSnoc(occ, [], e);
    assert [] + [e] == [e];
  }

  /** The constructor given rooms 1 and 2 builds Fresh. */
  lemma FreshIsBuilt()
    ensures (map r | r in [1, 2] :: {}) == Fresh.roomBookings && Fresh.bookings == map[]
  {
  }

  lemma BookAStep()
    ensures BookStep(Fresh, "A", [5], [1]) == Step(AfterA, true)
  {
    assert !RoomBooked(Fresh.roomBookings, [5], 1);
    assert !RoomsBooked(Fresh.roomBookings, [5], [1]);
    assert NewEntries("A", [5], [1]) == [Booking("A", [5], 1)];
    assert DaySet([5]) == {5};
    ClaimSingle(Fresh.roomBookings, [5], 1);
    assert {} + {5} == {5};
    assert Claim(Fresh.roomBookings, [5], [1]) == AfterA.roomBookings;
  }

  lemma BookBStep()
    ensures BookStep(AfterA, "B", [6], [1]) == Step(AfterB, true)
  {
    assert !RoomBooked(AfterA.roomBookings, [6], 1);
    assert !RoomsBooked(AfterA.roomBookings, [6], [1]);
    assert NewEntries("B", [6], [1]) == [Booking("B", [6], 1)];
    assert DaySet([6]) == {6};
    ClaimSingle(AfterA.roomBookings, [6], 1);
    assert {5} + {6} == {5, 6};
    assert Claim(AfterA.roomBookings, [6], [1]) == AfterB.roomBookings;
    assert AfterA.bookings["B" := [Booking("B", [6], 1)]] == AfterB.bookings;
  }

  /** Releasing "A" from AfterB leaves room 1 booked on B's day only. */
  lemma MoveAFrees()
    ensures Release(AfterB.roomBookings, [Booking("A", [5], 1)]) == map[1 := {6}, 2 := {}]
  {
    ReleaseSingle(AfterB.roomBookings, Booking("A", [5], 1));
    assert DaySet([5]) == {5};
    assert {5, 6} - {5} == {6};
  }

  lemma MoveAStep()
    ensures RoomsKnown(AfterB) && UpdateStep(AfterB, "A", [6], [2]) == Step(AfterMove, Ok(true))
  {
    var a := [Booking("A", [5], 1)];
    var freed: Occupancy := map[1 := {6}, 2 := {}];
    MoveAFrees();
    assert !RoomBooked(freed, [6], 2);
    assert !RoomsBooked(freed, [6], [2]);
    assert RoomsOf(a) == [1];
    assert Redate(a, [6]) == [Booking("A", [6], 1)];
    assert DaySet([6]) == {6};
    ClaimSingle(freed, [6], 1);
    assert {6} + {6} == {6};
    assert Claim(freed, [6], [1]) == AfterMove.roomBookings;
  }

  lemma CancelBStep()
    ensures RoomsKnown(AfterMove) && CancelStep(AfterMove, "B") == Step(Drifted, Ok(()))
  {
    var b := [Booking("B", [6], 1)];
    ReleaseSingle(AfterMove.roomBookings, b[0]);
    assert DaySet([6]) == {6};
    assert {6} - {6} == {};
    assert Release(AfterMove.roomBookings, b) == Drifted.roomBookings;
    assert AfterMove.bookings - {"B"} == Drifted.bookings;
  }

  /** The run Fresh, AfterA, AfterB, AfterMove, Drifted: every step succeeds. */
  lemma DriftIsReachable()
    ensures BookStep(Fresh, "A", [5], [1]) == Step(AfterA, true)
    ensures BookStep(AfterA, "B", [6], [1]) == Step(AfterB, true)
    ensures RoomsKnown(AfterB) && UpdateStep(AfterB, "A", [6], [2]) == Step(AfterMove, Ok(true))
    ensures RoomsKnown(AfterMove) && CancelStep(AfterMove, "B") == Step(Drifted, Ok(()))
  {
    BookAStep();
    BookBStep();
    MoveAStep();
    CancelBStep();
  }

  /** Booking under the live reference "A" again succeeds and overwrites its entry. */
  lemma ReuseAStep()
    ensures BookStep(AfterA, "A", [6], [1]) == Step(Leaked, true)
  {
    assert !RoomBooked(AfterA.roomBookings, [6], 1);
    assert !RoomsBooked(AfterA.roomBookings, [6], [1]);
    assert NewEntries("A", [6], [1]) == [Booking("A", [6], 1)];
    assert DaySet([6]) == {6};
    ClaimSingle(AfterA.roomBookings, [6], 1);
    assert {5} + {6} == {5, 6};
    assert Claim(AfterA.roomBookings, [6], [1]) == Leaked.roomBookings;
  }

  /** The run Fresh, AfterA, Leaked reaches a state that is not exact: room 1 is
      booked on day 5 and no booking holds that day. */
  lemma LeakIsReachable()
    ensures BookStep(Fresh, "A", [5], [1]) == Step(AfterA, true)
    ensures BookStep(AfterA, "A", [6], [1]) == Step(Leaked, true)
    ensures 5 in Leaked.roomBookings[1] && !Exact(Leaked)
  {
    BookAStep();
    ReuseAStep();
    HeldOne(Booking("A", [6], 1), 1);
    assert Held(Leaked.bookings["A"], 1) == {6};
  }

  /** Drifted is well formed and has no double booking, but is not consistent:
      "A" holds room 1 on day 6 and room 1 is not booked that day. */
  lemma DriftedIsInconsistent()
    ensures WellFormed(Drifted) && NoDoubleBooking(Drifted) && !Consistent(Drifted)
  {
    HeldOne(Booking("A", [6], 1), 1);
    assert 6 in Held(Drifted.bookings["A"], 1);
    assert !(Held(Drifted.bookings["A"], 1) <= Drifted.roomBookings[1]);
  }

  /** From Drifted, booking "C" in room 1 on day 6 succeeds, and then "A" and "C" both
      hold room 1 on day 6. */
  lemma DriftedBookDoubleBooks()
    ensures RoomsKnown(Drifted)
    ensures var r := BookStep(Drifted, "C", [6], [1]);
      && r.out
      && 6 in Held(r.next.bookings["A"], 1) && 6 in Held(r.next.bookings["C"], 1)
      && !NoDoubleBooking(r.next)
  {
    var r := BookStep(Drifted, "C", [6], [1]);
    assert !RoomBooked(Drifted.roomBookings, [6], 1);
    assert !RoomsBooked(Drifted.roomBookings, [6], [1]);
    var c := [Booking("C", [6], 1)];
    assert NewEntries("C", [6], [1]) == c;
    assert r.next.bookings["A"] == [Booking("A", [6], 1)] && r.next.bookings["C"] == c;
    HeldOne(Booking("A", [6], 1), 1);
    HeldOne(c[0], 1);
  }

  lemma BookYStep()
    ensures BookStep(Drifted, "Y", [3], [1]) == Step(WithY, true)
  {
    assert !RoomBooked(Drifted.roomBookings, [3], 1);
    assert !RoomsBooked(Drifted.roomBookings, [3], [1]);
    assert NewEntries("Y", [3], [1]) == [Booking("Y", [3], 1)];
    assert DaySet([3]) == {3};
    ClaimSingle(Drifted.roomBookings, [3], 1);
    assert {} + {3} == {3};
    assert Claim(Drifted.roomBookings, [3], [1]) == WithY.roomBookings;
  }

  /** From WithY, moving "Y" to day 6 while listing its own room 1 succeeds, and then
      "A" and "Y" both hold room 1 on day 6: a covering update double-books once the
      occupancy has drifted. */
  lemma CoveringUpdateDoubleBooks()
    ensures RoomsKnown(WithY)
    ensures var r := UpdateStep(WithY, "Y", [6], [1]);
      && r.out == Ok(true)
      && 6 in Held(r.next.bookings["A"], 1) && 6 in Held(r.next.bookings["Y"], 1)
      && !NoDoubleBooking(r.next)
  {
    var y := [Booking("Y", [3], 1)];
    HeldOne(y[0], 1);
    HeldOne(y[0], 2);
    var freed := Release(WithY.roomBookings, y);
    assert freed[1] == {} && freed[2] == {};
    assert !RoomBooked(freed, [6], 1);
    assert !RoomsBooked(freed, [6], [1]);
    var r := UpdateStep(WithY, "Y", [6], [1]);
    UpdateCommitted(WithY, "Y", [6], [1]);
    var y' := [Booking("Y", [6], 1)];
    assert Redate(y, [6]) == y';
    assert r.next.bookings["A"] == [Booking("A", [6], 1)] && r.next.bookings["Y"] == y';
    HeldOne(Booking("A", [6], 1), 1);
    HeldOne(y'[0], 1);
  }

  lemma BookDStep()
    ensures BookStep(Drifted, "D", [9], [2]) == Step(WithD, true)
  {
    assert !RoomBooked(Drifted.roomBookings, [9], 2);
    assert !RoomsBooked(Drifted.roomBookings, [9], [2]);
    assert NewEntries("D", [9], [2]) == [Booking("D", [9], 2)];
    assert DaySet([9]) == {9};
    ClaimSingle(Drifted.roomBookings, [9], 2);
    assert {} + {9} == {9};
    assert Claim(Drifted.roomBookings, [9], [2]) == WithD.roomBookings;
  }

  /** From WithD, moving "A" to day 9 with room 2 listed is refused (room 2 is booked
      that day), yet room 1 comes back booked on day 6 where it was free: a refusal
      restores the occupancy only when it was consistent. */
  lemma RefusedUpdateChangesRoom()
    ensures RoomsKnown(WithD)
    ensures var r := UpdateStep(WithD, "A", [9], [2]);
      && r.out == Ok(false)
      && r.next.bookings == WithD.bookings
      && WithD.roomBookings[1] == {} && r.next.roomBookings[1] == {6}
  {
    var a := [Booking("A", [6], 1)];
    HeldOne(a[0], 1);
    HeldOne(a[0], 2);
    var freed := Release(WithD.roomBookings, a);
    assert freed[1] == {} && freed[2] == {9};
    assert RoomBooked(freed, [9], 2);
    assert RoomsBooked(freed, [9], [2]);
  }
}
