# Hotel booking engine, modelled in Dafny

A hotel has a fixed list of room numbers and two indexes:

- the occupancy index `roomBookings` maps each room number to the set of days on which it is booked;
- the booking index `bookings` maps each booking reference to its entries, one per booked room.

Each entry is a `Booking`: the reference, the days and one room number.

The public operations are:

- `roomBooked(days, roomNum)` and `roomsBooked(days, roomNums)` answer availability questions;
- `bookRooms(ref, days, roomNums)` books every listed room on every day, all or nothing;
- `updateBooking(ref, days, roomNums)` moves an existing booking to new days;
- `cancelBooking(ref)` removes a booking.

`updateBooking` and `cancelBooking` fail with `NoSuchBookingException` for an unknown reference. Every public operation holds the hotel's read/write lock for its whole run, so each one is a single atomic step.

The project has five modules:

- `Availability` (`availability.dfy`): the two queries as pure functions of an occupancy map.
- `Ledger` (`ledger.dfy`) contains:
  - the `Booking` entry and the state as a value;
  - one step function per write operation (`BookStep`, `UpdateStep`, `CancelStep`), each returning the next state and the result;
  - the invariants that relate the two indexes:
    - `RoomsKnown` and `Tagged`, together `WellFormed`: structural;
    - `Consistent`: every day a booking holds is in the occupancy index;
    - `NoDoubleBooking`: no room and day is held by two references;
    - `Exact`: every occupied room and day is held by some booking.
- `LedgerProperties` (`properties.dfy`): what each step does to those invariants, and what the queries then report.
- `HotelEngine` (`hotel.dfy`): the class `Hotel`, with the two indexes as mutable fields. The two queries are functions that delegate to `Availability`, whose recursion stands for the source's scanning loops. The three write operations are methods whose loops follow the source loop for loop. Each write method is proved to take exactly the step its `Ledger` function defines, so every property proved about a step holds for the method. The class invariant `Valid` carries only the room set and `WellFormed`: the other three invariants are not kept by every run, as the next module shows.
- `LedgerTrace` (`trace.dfy`): runs from a freshly built hotel. One reaches a state where `Consistent` has been lost, and shows what the operations then do. Another reaches a state where `Exact` has been lost.

What the code does, as opposed to what its comments and demo say:

- **`updateBooking` never changes a booking's rooms.** Its `roomNums` argument is used only in the availability check. The commit gives the new days to the booking's existing entries and books their existing rooms (`UpdateHoldsOldRoomsOnNewDays`, `UpdateKeepsRooms`). The model follows the code.
- **The check can pass while the booking's own room is taken.** The update checks only the listed rooms, so a booking can be moved onto days that another booking already holds in its own room. `UpdateCanDoubleBook` shows such a state: every invariant holds (`TwoBookingsInRoomOne`), and afterwards two references hold room 1 on day 6. No double booking is created when the state is `Consistent` and the listed rooms include every room the booking holds (`UpdateWithinRoomsKeepsNoDoubleBooking`).
- **Releasing one booking can drop another's days.** The occupancy sets do not record who holds a day. So if two references ever hold the same room and day, a cancellation of one of them, or a successful update that moves it off that day, frees the other's day. This is why `Consistent` is kept by update and cancel only together with `NoDoubleBooking`.
- **`bookRooms` does not check that the reference is new.** A reused reference overwrites the old entries, and the days they held stay booked with no booking holding them (`BookReusedRefLeaks`). A run from a fresh hotel that books "A" twice reaches such a state (`LeakIsReachable`). Booking keeps `Consistent` whatever the reference, and keeps `NoDoubleBooking` whatever the reference provided the state is `Consistent`; it keeps `Exact` only for a fresh one (`BookFreshKeepsExact`).
- **The invariants are not kept by every run.** Book "A" in room 1 on day 5, book "B" in room 1 on day 6, move "A" to day 6 listing room 2 (it stays in room 1), then cancel "B". Room 1 is now free on day 6 although "A" holds it: the state is well formed and has no double booking, but is not `Consistent` (`DriftIsReachable`, `DriftedIsInconsistent`). From there:
  - booking room 1 on day 6 under a new reference succeeds, so two references hold it (`DriftedBookDoubleBooks`);
  - an update that lists every room its booking holds can also double-book (`CoveringUpdateDoubleBooks`);
  - a refused update does not restore the occupancy: it puts back days that were not booked (`RefusedUpdateChangesRoom`). The booking index is unchanged on every refusal (`Ledger.UpdateStep`), and the occupancy is guaranteed to be restored exactly from a `Consistent` state (`UpdateRefusedRestores`).
- **The demo's expected outputs disagree with the code.** `Main.java` expects the updated booking to occupy rooms 103 and 104 (line 26), but the update keeps it in rooms 101 and 102. It expects the booking of room 102 at line 41 to be refused; by the code that booking succeeds, because the cancellation freed room 102 and only room 101 has been booked again. The model follows `Hotel.java`.

## Model

| member | source | states |
|---|---|---|
| Availability.AnyDayIn | Hotel.java:42-48 | true exactly when some element of `days` is in the room's booked set |
| Availability.RoomBooked | Hotel.java:36-48 | an unknown room is never booked; a known room is booked iff one of `days` is in its set |
| Availability.RoomsBooked | Hotel.java:168-173 | true iff some listed room is booked on one of `days`; false for no rooms |
| Ledger.BookStep | Hotel.java:56-81 | succeeds iff every listed room is known and free on every day; a refusal leaves the state unchanged; the set of rooms never changes |
| Ledger.UpdateStep | Hotel.java:83-133 | `NoSuchBooking(ref)` exactly when the reference is unknown, and then nothing changes; a refusal leaves the booking index unchanged; neither the rooms nor the set of references change |
| Ledger.CancelStep | Hotel.java:135-160 | `NoSuchBooking(ref)` exactly when the reference is unknown, and then nothing changes; otherwise the reference is removed and nothing else is |
| LedgerProperties.BookedRoomsWereFree | Hotel.java:59-64 | every room of a successful booking was known and free on all the days |
| LedgerProperties.BookKeepsWellFormed | Hotel.java:66-76 | booking keeps every entry on a known room and tagged with its reference |
| LedgerProperties.BookKeepsConsistent | Hotel.java:66-76 | booking keeps every held day in the occupancy index, even with a reused reference |
| LedgerProperties.BookKeepsNoDoubleBooking | Hotel.java:59-76 | from a consistent state, booking never gives a room and day to two references |
| LedgerProperties.BookFreshKeepsExact | Hotel.java:66-76 | with a fresh reference every occupied day is still held by some booking |
| LedgerProperties.BookReusedRefLeaks | Hotel.java:76 | with a reused reference, from a state meeting every invariant, a day stays booked that no booking holds |
| LedgerProperties.UpdateRefusedRestores | Hotel.java:107-116 | a refused update leaves a consistent state exactly as it was, occupancy included |
| LedgerProperties.UpdateKeepsRooms | Hotel.java:119-127 | a successful update keeps the booking's rooms and references, gives every entry the new days and leaves other bookings alone |
| LedgerProperties.UpdateHoldsOldRoomsOnNewDays | Hotel.java:119-127 | after a successful update the booking holds exactly its old rooms on the new days, and every other room is untouched |
| LedgerProperties.UpdateKeepsWellFormed | Hotel.java:83-133 | an update keeps every entry on a known room and tagged with its reference |
| LedgerProperties.UpdateKeepsConsistent | Hotel.java:99-127 | without double bookings before, an update keeps every held day in the occupancy index |
| LedgerProperties.UpdateWithinRoomsKeepsNoDoubleBooking | Hotel.java:106-127 | from a consistent state, an update whose listed rooms cover the booking's rooms creates no double booking |
| LedgerProperties.TwoBookingsInRoomOne | Hotel.java:12-13 | a concrete hotel state with two bookings in one room meets every invariant |
| LedgerProperties.UpdateCanDoubleBook | Hotel.java:106-127 | from that state, moving a booking to a free room succeeds but books its own room on a day another booking holds |
| LedgerProperties.UpdateKeepsExact | Hotel.java:99-127 | an update leaves every occupied day held by some booking |
| LedgerProperties.CancelKeepsInvariants | Hotel.java:148-155 | cancelling keeps the entries well formed, consistent and free of double bookings |
| LedgerProperties.CancelKeepsExact | Hotel.java:148-155 | cancelling leaves every occupied day held by some booking |
| LedgerProperties.CancelFreesItsDays | Hotel.java:148-155 | after cancelling, the reference is gone and no room is booked on a day the booking held there |
| LedgerProperties.CancelUndoesFreshBook | Hotel.java:135-160 | cancelling a booking just made under a fresh reference restores the state before it |
| LedgerProperties.QueryReflectsBookings | Hotel.java:30-54 | with consistent indexes a held day makes the room booked; with exact indexes a booked day is held by some booking |
| HotelEngine.Hotel.constructor | Hotel.java:17-28 | every given room starts with no booked day and there are no bookings; all invariants hold |
| HotelEngine.Hotel.RoomBooked | Hotel.java:30-54 | never true for a room the hotel lacks; agrees with the bookings' held days under the invariants |
| HotelEngine.Hotel.RoomsBooked | Hotel.java:163-178 | true iff `RoomBooked` holds for some listed room |
| HotelEngine.Hotel.BookRooms | Hotel.java:56-81 | takes exactly the `BookStep` step and keeps the hotel valid |
| HotelEngine.Hotel.ClaimRooms | Hotel.java:67-75 | builds one entry per listed room, in order, and books each listed room on every day |
| HotelEngine.Hotel.UpdateBooking | Hotel.java:83-133 | takes exactly the `UpdateStep` step and keeps the hotel valid |
| HotelEngine.Hotel.CancelBooking | Hotel.java:135-160 | takes exactly the `CancelStep` step and keeps the hotel valid |
| HotelEngine.Hotel.ReleaseEntries | Hotel.java:99-104 | removes every day each entry holds from that entry's room, and changes nothing else |
| HotelEngine.Hotel.RestoreEntries | Hotel.java:109-114 | puts every day each entry holds back on that entry's room |
| HotelEngine.Hotel.RedateEntries | Hotel.java:119-127 | gives every entry of the booking the new days and books each entry's own room on them |
| HotelEngine.Hotel.AddDays | Hotel.java:72-74 | the room's set gains exactly the given days |
| HotelEngine.Hotel.RemoveDays | Hotel.java:101-103 | the room's set loses exactly the given days |
| LedgerTrace.FreshIsBuilt | Hotel.java:21-27 | the hotel built with rooms 1 and 2 has both rooms free and no bookings |
| LedgerTrace.BookAStep | Hotel.java:56-81 | booking "A" in room 1 on day 5 in the fresh hotel succeeds and gives the stated state |
| LedgerTrace.ReuseAStep | Hotel.java:67-76 | booking room 1 on day 6 again under "A" succeeds and overwrites its entry, leaving room 1 booked on day 5 |
| LedgerTrace.LeakIsReachable | Hotel.java:56-81 | the fresh hotel reaches, in two bookings under "A", a state where room 1 is booked on day 5 and that state is not exact |
| LedgerTrace.BookBStep | Hotel.java:56-81 | booking "B" in room 1 on day 6 then succeeds |
| LedgerTrace.MoveAStep | Hotel.java:97-128 | moving "A" to day 6 with room 2 listed succeeds and leaves "A" in room 1 on B's day |
| LedgerTrace.CancelBStep | Hotel.java:148-155 | cancelling "B" then frees room 1 on day 6 although "A" holds it |
| LedgerTrace.DriftIsReachable | Hotel.java:56-160 | the four steps above form one run from the fresh hotel |
| LedgerTrace.DriftedIsInconsistent | Hotel.java:148-155 | the state reached is well formed and has no double booking, but is not consistent |
| LedgerTrace.DriftedBookDoubleBooks | Hotel.java:59-76 | from it, booking room 1 on day 6 succeeds and two references hold that room and day |
| LedgerTrace.BookYStep | Hotel.java:56-81 | from it, booking "Y" in room 1 on day 3 succeeds |
| LedgerTrace.CoveringUpdateDoubleBooks | Hotel.java:106-127 | then moving "Y" to day 6 with its own room listed succeeds and double-books room 1 |
| LedgerTrace.BookDStep | Hotel.java:56-81 | from the inconsistent state, booking "D" in room 2 on day 9 succeeds |
| LedgerTrace.RefusedUpdateChangesRoom | Hotel.java:107-116 | then moving "A" to day 9 with room 2 listed is refused, keeps the booking index, and leaves room 1 booked on day 6 where it was free |

## Left out

- Locking: the read/write lock (Hotel.java:15) is not modelled. Each operation is one atomic step, which is what holding the lock for the whole call gives. Concurrent interleavings are not modelled.
- Exception text: the message of `NoSuchBookingException` (Hotel.java:6) is dropped. The model keeps only the outcome `NoSuchBooking(ref)`.
- Array aliasing: `Booking.days` shares the caller's array (Hotel.java:69, 122), so a caller who later changes that array changes the booking. The model stores days as values.
- Null lookups: the update and cancel loops would throw `NullPointerException` on an entry whose room is unknown (Hotel.java:102, 112, 125, 151). The step functions instead require `RoomsKnown`. Every operation keeps that predicate, so the case cannot arise in a `Hotel`.
- Null arguments and Java's 32-bit `int`: room numbers and days are only compared, never computed with, so unbounded integers behave the same.
- `Main.java` is not part of this model. It is a demo that prints results.
- LedgerProperties.UpdateKeepsConsistent: requires `NoDoubleBooking` as well as `Consistent`. Without it the code does not keep consistency, because releasing one booking's days also frees another's shared day.
- LedgerProperties.CancelKeepsInvariants: requires `NoDoubleBooking` for the same reason.
- LedgerProperties.UpdateWithinRoomsKeepsNoDoubleBooking: requires the listed rooms to cover the booking's rooms, and a `Consistent` state. Without the first the code can double-book (`UpdateCanDoubleBook`). Without the second the release can leave a day free that another booking holds, and the code double-books even with covering rooms (`CoveringUpdateDoubleBooks`). A run can reach such a state (`DriftIsReachable`).
- LedgerProperties.BookKeepsNoDoubleBooking: requires a `Consistent` state. Otherwise a room can look free on a day a booking holds, and the code books it again (`DriftedBookDoubleBooks`).
- LedgerProperties.UpdateRefusedRestores: states the exact rollback only from a `Consistent` state. From a reachable inconsistent state a refusal puts back days that were not booked (`RefusedUpdateChangesRoom`). The booking index is unchanged on every refusal; that part is stated by `Ledger.UpdateStep` with no condition.
- LedgerProperties.BookFreshKeepsExact: requires a fresh reference. With a reused one the code leaks booked days (`BookReusedRefLeaks`).
