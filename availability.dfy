/**
  The availability checks of the booking engine, written as pure functions of an
  occupancy snapshot (room number to the set of days it is booked). The public
  queries of the hotel read them on the current occupancy, and the write operations
  call them on the occupancy they are in the middle of changing.
 */
module Availability {

  /** True iff some element of `days` is in `booked`: the scan over `days` that
      stops at the first booked day. */
  function AnyDayIn(days: seq<int>, booked: set<int>): (b: bool)
    ensures b <==> exists i :: 0 <= i < |days| && days[i] in booked
  {
    if days == [] then false
    else if days[0] in booked then true
    else
      var rest := AnyDayIn(days[1..], booked);
      assert rest ==> exists i :: 0 <= i < |days| && days[i] in booked by {
        if rest {
          var i :| 0 <= i < |days[1..]| && days[1..][i] in booked;
          assert days[i + 1] in booked;
        }
      }
      rest
  }

  /** `roomBooked`: an unknown room is never booked; a known room is booked iff
      one of `days` is among its booked days. */
  function RoomBooked(occ: map<int, set<int>>, days: seq<int>, roomNum: int): (b: bool)
    ensures roomNum !in occ ==> !b
    ensures roomNum in occ ==> (b <==> exists i :: 0 <= i < |days| && days[i] in occ[roomNum])
  {
    roomNum in occ && AnyDayIn(days, occ[roomNum])
  }

  /** `roomsBooked`: some listed room is booked on one of `days`; false for an
      empty list of rooms. */
  function RoomsBooked(occ: map<int, set<int>>, days: seq<int>, roomNums: seq<int>): (b: bool)
    ensures b <==> exists j :: 0 <= j < |roomNums| && RoomBooked(occ, days, roomNums[j])
    ensures roomNums == [] ==> !b
  {
    if roomNums == [] then false
    else if RoomBooked(occ, days, roomNums[0]) then true
    else
      var rest := RoomsBooked(occ, days, roomNums[1..]);
      assert rest ==> exists j :: 0 <= j < |roomNums| && RoomBooked(occ, days, roomNums[j]) by {
        if rest {
          var j :| 0 <= j < |roomNums[1..]| && RoomBooked(occ, days, roomNums[1..][j]);
          assert roomNums[1..][j] == roomNums[j + 1];
        }
      }
      rest
  }
}
