/** Room bookings (app/services/booking_service.py, app/repositories/bookings_repo.py):
    an allocator of half-open intervals with cancellation.  Calls are serial.  A row's
    id is its place in the table.
 */
module Bookings {
  import opened Common

  datatype Status = Confirmed | Cancelled

  datatype Booking = Booking(
    room: nat, booker: string, start: Instant, end: Instant, code: string, status: Status)
  {
    /** The SQL overlap test of `find_overlapping` and `list_for_room_between`. */
    predicate Overlaps(room: nat, start: Instant, end: Instant) {
      this.room == room && status == Confirmed && this.start < end && this.end > start
    }

    predicate Covers(room: nat, t: Instant) {
      this.room == room && status == Confirmed && start <= t < end
    }
  }

  type Table = seq<Booking>

  /** `rooms` maps every room to whether it is active. */
  datatype BookingState = BookingState(rooms: map<nat, bool>, table: Table)

  predicate Busy(table: Table, room: nat, start: Instant, end: Instant) {
    exists i :: 0 <= i < |table| && table[i].Overlaps(room, start, end)
  }

  predicate CodeTaken(table: Table, code: string) {
    exists i :: 0 <= i < |table| && table[i].code == code
  }

  const CODE_MAX_ATTEMPTS: nat := 5

  datatype Error = InvalidBookingTime | RoomNotFound | BookingConflict | BookingNotFound | NotStored | StoredButFailed

  datatype Result<+T> = Ok(value: T) | Err(error: Error)

  /** What the service promises and every call keeps. */
  ghost predicate Allocated(s: BookingState) {
    && (forall i :: 0 <= i < |s.table| ==> s.table[i].start < s.table[i].end && s.table[i].room in s.rooms)
    && (forall i, j :: 0 <= i < j < |s.table| ==> s.table[i].code != s.table[j].code)
    && (forall i, j :: 0 <= i < j < |s.table| && s.table[j].status == Confirmed ==>
          !s.table[i].Overlaps(s.table[j].room, s.table[j].start, s.table[j].end))
  }

  /** Whether attempt `a` to store the booking goes through. */
  predicate Stores(table: Table, draw: nat -> string, dbUp: nat -> bool, a: nat) {
    dbUp(a) && !CodeTaken(table, draw(a))
  }

  /** The table with booking `id` cancelled: its row is kept, as it was but for its status. */
  function Without(table: Table, id: nat): Table
    requires id < |table|
  {
    var b := table[id];
    table[id := Booking(b.room, b.booker, b.start, b.end, b.code, Cancelled)]
  }

  class BookingService {
    var rooms: map<nat, bool>
    var table: Table

    ghost function State(): BookingState
      reads this
    {
      BookingState(rooms, table)
    }

    constructor (rooms: map<nat, bool>)
      ensures State() == BookingState(rooms, []) && Allocated(State())
    {
      this.rooms, table := rooms, [];
    }

    /** `draw(a)` is the access code generated for attempt `a`; `dbUp(a)` is false when
        the insert fails for a reason other than the code.  A booking stored by a later
        attempt stays, but the call fails: the rollback before it expired the loaded room,
        whose name the confirmation email reads. */
    method CreateBooking(
      room: nat, booker: string, start: Instant, end: Instant, now: Instant,
      draw: nat -> string, dbUp: nat -> bool) returns (r: Result<nat>)
      requires Allocated(State())
      modifies this`table
      ensures Allocated(State())
      ensures State() == Next(old(State()), Create(room, booker, start, end, now, draw, dbUp))
      ensures r.Ok? <==>
              && now <= start < end && room in rooms && rooms[room] && !Busy(old(table), room, start, end)
              && Stores(old(table), draw, dbUp, 0)
      ensures r.Ok? ==> r.value == |old(table)| < |table|
      ensures table == old(table) <==> r.Err? && r.error != StoredButFailed
      ensures r.Ok? || r.error == StoredButFailed ==>
                exists a: nat ::
                  && a < 5 && Stores(old(table), draw, dbUp, a)
                  && (forall b: nat :: b < a ==> !Stores(old(table), draw, dbUp, b))
                  && table == old(table) + [Booking(room, booker, start, end, draw(a), Confirmed)]
      ensures r.Err? ==> r.error == if end <= start || start < now then InvalidBookingTime
                                    else if room !in rooms || !rooms[room] then RoomNotFound
                                    else if Busy(old(table), room, start, end) then BookingConflict
                                    else if exists a: nat :: a < 5 && Stores(old(table), draw, dbUp, a)
                                    then StoredButFailed
                                    else NotStored
    {
      if end <= start || start < now {
        return Err(InvalidBookingTime);
      }
      if room !in rooms || !rooms[room] {
        return Err(RoomNotFound);
      }
      if Busy(table, room, start, end) {
        return Err(BookingConflict);
      }
      var booking := Booking(room, booker, start, end, draw(0), Confirmed);
      var attempt := 0;
      while attempt < CODE_MAX_ATTEMPTS
        invariant attempt < CODE_MAX_ATTEMPTS && table == old(table)
        invariant booking == Booking(room, booker, start, end, draw(attempt), Confirmed)
        invariant forall b: nat :: b < attempt ==> !Stores(table, draw, dbUp, b)
      {
        if dbUp(attempt) && !CodeTaken(table, booking.code) {
          table := table + [booking];
          FirstStoringIs(old(table), draw, dbUp, attempt);
          return if attempt == 0 then Ok(|table| - 1) else Err(StoredButFailed);
        }
        if attempt == CODE_MAX_ATTEMPTS - 1 {
          FirstStoringIs(table, draw, dbUp, CODE_MAX_ATTEMPTS);
          return Err(NotStored);
        }
        attempt := attempt + 1;
        booking := booking.(code := draw(attempt));
      }
    }

    method CancelBookingById(id: nat) returns (r: Result<Booking>)
      requires Allocated(State())
      modifies this`table
      ensures Allocated(State())
      ensures State() == Next(old(State()), CancelId(id))
      ensures r == if id < |table| then Ok(table[id]) else Err(BookingNotFound)
      ensures table == if id < |old(table)| then Without(old(table), id) else old(table)
    {
      if id >= |table| {
        return Err(BookingNotFound);
      }
      var booking := Cancel(id);
      return Ok(booking);
    }

    method CancelBooking(code: string) returns (r: Result<Booking>)
      requires Allocated(State())
      modifies this`table
      ensures Allocated(State())
      ensures r.Ok? <==> CodeTaken(old(table), code)
      ensures r.Ok? ==> exists id ::
                && 0 <= id < |old(table)| && old(table)[id].code == code
                && State() == Next(old(State()), CancelId(id)) && r.value == table[id]
                && table == Without(old(table), id)
      ensures r.Err? ==> table == old(table) && r.error == BookingNotFound
    {
      if !CodeTaken(table, code) {
        return Err(BookingNotFound);
      }
      var id :| 0 <= id < |table| && table[id].code == code;
      var booking := Cancel(id);
      return Ok(booking);
    }

    method Cancel(id: nat) returns (booking: Booking)
      requires Allocated(State()) && id < |table|
      modifies this`table
      ensures Allocated(State())
      ensures State() == Next(old(State()), CancelId(id)) && booking == table[id]
      ensures table == Without(old(table), id)
    {
      if table[id].status != Cancelled {
        table := table[id := table[id].(status := Cancelled)];
      }
      booking := table[id];
    }

    method CountActiveNow(now: Instant) returns (n: nat)
      ensures n == ActiveAt(table, now)
      ensures n == |set i | 0 <= i < |table|
                            && table[i].status == Confirmed && table[i].start <= now && now < table[i].end|
      ensures Allocated(State()) ==> n <= |rooms|
    {
      n := 0;
      for i := 0 to |table|
        invariant n == ActiveAt(table[..i], now)
      {
        assert table[..i + 1][..i] == table[..i];
        n := n + if table[i].Covers(table[i].room, now) then 1 else 0;
      }
      assert table[..|table|] == table;
      ActiveIsCounted(table, now);
      if Allocated(State()) {
        ActiveAtMostRooms(State(), now);
      }
    }
  }

  /** The overlap test is right: it holds exactly when some instant is in both. */
  lemma OverlapIffSharedInstant(b: Booking, room: nat, start: Instant, end: Instant)
    requires b.start < b.end && start < end
    ensures b.Overlaps(room, start, end) <==> exists t: Instant :: b.Covers(room, t) && start <= t < end
  {
    if b.Overlaps(room, start, end) {
      var t := if b.start < start then start else b.start;
      assert b.Covers(room, t) && start <= t < end;
    }
  }

  /** No instant of a room is promised twice. */
  lemma NoDoubleBooking(s: BookingState, i: nat, j: nat, room: nat, t: Instant)
    requires Allocated(s) && i < |s.table| && j < |s.table|
    requires i != j && s.table[i].Covers(room, t)
    ensures !s.table[j].Covers(room, t)
  {
  }

  // Runs

  datatype Op =
    | Create(room: nat, booker: string, start: Instant, end: Instant, now: Instant,
             draw: nat -> string, dbUp: nat -> bool)
    | CancelId(id: nat)
    | SetRoom(room: nat, active: bool)

  /** The first attempt from `a` on that is stored, or the number of attempts. */
  function FirstStoring(table: Table, draw: nat -> string, dbUp: nat -> bool, a: nat): nat
    decreases CODE_MAX_ATTEMPTS - a
  {
    if a >= CODE_MAX_ATTEMPTS then CODE_MAX_ATTEMPTS
    else if Stores(table, draw, dbUp, a) then a
    else FirstStoring(table, draw, dbUp, a + 1)
  }

  lemma FirstStoringIs(table: Table, draw: nat -> string, dbUp: nat -> bool, a: nat)
    requires a <= CODE_MAX_ATTEMPTS && (a < CODE_MAX_ATTEMPTS ==> Stores(table, draw, dbUp, a))
    requires forall b: nat :: b < a ==> !Stores(table, draw, dbUp, b)
    ensures FirstStoring(table, draw, dbUp, 0) == a
  {
    var b := a;
    while b > 0
      invariant 0 <= b <= a && FirstStoring(table, draw, dbUp, b) == a
    {
      b := b - 1;
    }
  }

  /** The state after one call. */
  function Next(s: BookingState, op: Op): BookingState {
    match op
    case Create(room, booker, start, end, now, draw, dbUp) =>
      var a := FirstStoring(s.table, draw, dbUp, 0);
      if now <= start < end && room in s.rooms && s.rooms[room] && !Busy(s.table, room, start, end)
         && a < CODE_MAX_ATTEMPTS
      then s.(table := s.table + [Booking(room, booker, start, end, draw(a), Confirmed)])
      else s
    case CancelId(id) =>
      if id < |s.table| then s.(table := s.table[id := s.table[id].(status := Cancelled)]) else s
    case SetRoom(room, active) =>
      s.(rooms := s.rooms[room := active])
  }

  function After(rooms: map<nat, bool>, ops: seq<Op>): BookingState {
    if ops == [] then BookingState(rooms, []) else Next(After(rooms, ops[..|ops| - 1]), ops[|ops| - 1])
  }

  lemma FirstStoringStores(table: Table, draw: nat -> string, dbUp: nat -> bool, a: nat)
    ensures var f := FirstStoring(table, draw, dbUp, a);
            f < CODE_MAX_ATTEMPTS ==> Stores(table, draw, dbUp, f)
    decreases CODE_MAX_ATTEMPTS - a
  {
  }

  /** Every run of bookings, cancellations and room changes keeps the promise. */
  lemma {:induction false} RunStaysAllocated(rooms: map<nat, bool>, ops: seq<Op>)
    ensures Allocated(After(rooms, ops))
  {
    if ops != [] {
      RunStaysAllocated(rooms, ops[..|ops| - 1]);
      hide Next, Allocated;
      NextStaysAllocated(After(rooms, ops[..|ops| - 1]), ops[|ops| - 1]);
    } else {
      assert |After(rooms, ops).table| == 0;
    }
  }

  lemma NextStaysAllocated(s: BookingState, op: Op)
    requires Allocated(s)
    ensures Allocated(Next(s, op))
  {
    if op.Create? {
      FirstStoringStores(s.table, op.draw, op.dbUp, 0);
    }
  }

  // Capacity

  /** Confirmed bookings of `room` that cover `t`. */
  function CountAt(table: Table, room: nat, t: Instant): nat {
    if table == [] then 0
    else CountAt(table[..|table| - 1], room, t) + if table[|table| - 1].Covers(room, t) then 1 else 0
  }

  function Clip(b: Booking, room: nat, lo: Instant, hi: Instant): nat {
    var from := if b.start < lo then lo else b.start;
    var to := if b.end < hi then b.end else hi;
    if b.room == room && b.status == Confirmed && from < to then to - from else 0
  }

  /** Confirmed time of `room` inside the window. */
  function BookedTime(table: Table, room: nat, lo: Instant, hi: Instant): nat {
    if table == [] then 0
    else BookedTime(table[..|table| - 1], room, lo, hi) + Clip(table[|table| - 1], room, lo, hi)
  }

  function InstantsBooked(table: Table, room: nat, lo: Instant, hi: Instant): nat
    decreases hi - lo
  {
    if hi <= lo then 0 else InstantsBooked(table, room, lo, hi - 1) + CountAt(table, room, hi - 1)
  }

  lemma {:induction false} AddBooking(table: Table, b: Booking, room: nat, lo: Instant, hi: Instant)
    requires b.start < b.end
    ensures InstantsBooked(table + [b], room, lo, hi) == InstantsBooked(table, room, lo, hi) + Clip(b, room, lo, hi)
    decreases hi - lo
  {
    if lo < hi {
      AddBooking(table, b, room, lo, hi - 1);
      assert (table + [b])[..|table|] == table;
    }
  }

  /** Adding up each booking's share of the window counts the booked instants in it. */
  lemma {:induction false} TimeCountsInstants(table: Table, room: nat, lo: Instant, hi: Instant)
    requires forall i :: 0 <= i < |table| ==> table[i].start < table[i].end
    ensures BookedTime(table, room, lo, hi) == InstantsBooked(table, room, lo, hi)
  {
    if table == [] {
      NothingBooked(room, lo, hi);
    } else {
      var rest, b := table[..|table| - 1], table[|table| - 1];
      TimeCountsInstants(rest, room, lo, hi);
      AddBooking(rest, b, room, lo, hi);
      assert rest + [b] == table;
    }
  }

  lemma {:induction false} NothingBooked(room: nat, lo: Instant, hi: Instant)
    ensures InstantsBooked([], room, lo, hi) == 0
    decreases hi - lo
  {
    if lo < hi {
      NothingBooked(room, lo, hi - 1);
    }
  }

  lemma {:induction false} AtMostOneCovers(s: BookingState, n: nat, room: nat, t: Instant)
    requires Allocated(s) && n <= |s.table|
    ensures CountAt(s.table[..n], room, t) <= 1
    ensures CountAt(s.table[..n], room, t) == 1 <==> exists i :: 0 <= i < n && s.table[i].Covers(room, t)
  {
    if n > 0 {
      AtMostOneCovers(s, n - 1, room, t);
      assert s.table[..n][..n - 1] == s.table[..n - 1];
    }
  }

  /** A room's confirmed time inside a window never exceeds the window. */
  lemma BookedTimeFitsWindow(s: BookingState, room: nat, lo: Instant, hi: Instant)
    requires Allocated(s) && lo <= hi
    ensures BookedTime(s.table, room, lo, hi) <= hi - lo
  {
    TimeCountsInstants(s.table, room, lo, hi);
    InstantsFit(s, room, lo, hi);
  }

  lemma {:induction false} InstantsFit(s: BookingState, room: nat, lo: Instant, hi: Instant)
    requires Allocated(s) && lo <= hi
    ensures InstantsBooked(s.table, room, lo, hi) <= hi - lo
    decreases hi - lo
  {
    if lo < hi {
      InstantsFit(s, room, lo, hi - 1);
      AtMostOneCovers(s, |s.table|, room, hi - 1);
      assert s.table[..|s.table|] == s.table;
    }
  }

  function ActiveAt(table: Table, now: Instant): nat {
    if table == [] then 0
    else
      var b := table[|table| - 1];
      ActiveAt(table[..|table| - 1], now) + if b.Covers(b.room, now) then 1 else 0
  }

  ghost function InProgress(table: Table, now: Instant): set<int> {
    set i | 0 <= i < |table| && table[i].status == Confirmed && table[i].start <= now && now < table[i].end
  }

  lemma {:induction false} ActiveIsCounted(table: Table, now: Instant)
    ensures ActiveAt(table, now) == |InProgress(table, now)|
  {
    if table != [] {
      var n := |table| - 1;
      ActiveIsCounted(table[..n], now);
      assert forall i :: 0 <= i < n ==> table[..n][i] == table[i];
      var before := InProgress(table[..n], now);
      var covers := table[n].Covers(table[n].room, now);
      assert covers <==> table[n].status == Confirmed && table[n].start <= now < table[n].end;
      assert InProgress(table, now) == if covers then before + {n} else before;
      hide InProgress;
    }
  }

  ghost function RoomsInUse(table: Table, now: Instant): set<nat> {
    set i | 0 <= i < |table| && table[i].Covers(table[i].room, now) :: table[i].room
  }

  /** Each booking in progress occupies its own room. */
  lemma {:induction false} ActiveIsRoomsInUse(s: BookingState, n: nat, now: Instant)
    requires Allocated(s) && n <= |s.table|
    ensures ActiveAt(s.table[..n], now) == |RoomsInUse(s.table[..n], now)|
  {
    if n > 0 {
      ActiveIsRoomsInUse(s, n - 1, now);
      var b, rest := s.table[n - 1], s.table[..n - 1];
      assert s.table[..n][..n - 1] == rest;
      assert s.table[..n] == rest + [b];
      RoomsInUseSnoc(rest, b, now);
      if b.Covers(b.room, now) {
        forall i | 0 <= i < n - 1 && rest[i].Covers(rest[i].room, now) ensures rest[i].room != b.room {
          assert !s.table[i].Overlaps(b.room, b.start, b.end);
        }
        assert b.room !in RoomsInUse(rest, now);
      }
      hide RoomsInUse, Allocated;
    }
  }

  lemma RoomsInUseSnoc(table: Table, b: Booking, now: Instant)
    ensures RoomsInUse(table + [b], now)
         == RoomsInUse(table, now) + if b.Covers(b.room, now) then {b.room} else {}
  {
    forall i | 0 <= i < |table| ensures (table + [b])[i] == table[i] {
    }
    forall room | room in RoomsInUse(table, now) ensures room in RoomsInUse(table + [b], now) {
      var i :| 0 <= i < |table| && table[i].Covers(table[i].room, now) && table[i].room == room;
      assert (table + [b])[i] == table[i];
    }
    if b.Covers(b.room, now) {
      assert (table + [b])[|table|] == b;
    }
  }

  lemma ActiveAtMostRooms(s: BookingState, now: Instant)
    requires Allocated(s)
    ensures ActiveAt(s.table, now) <= |s.rooms|
  {
    ActiveIsRoomsInUse(s, |s.table|, now);
    assert s.table[..|s.table|] == s.table;
    SubsetSize(RoomsInUse(s.table, now), s.rooms.Keys);
  }

  lemma {:induction false} SubsetSize<T>(a: set<T>, b: set<T>)
    requires a <= b
    ensures |a| <= |b|
    decreases a
  {
    if a != {} {
      var x :| x in a;
      SubsetSize(a - {x}, b - {x});
    }
  }

  predicate Booked(table: Table, room: nat, t: Instant) {
    exists i :: 0 <= i < |table| && table[i].Covers(room, t)
  }

  /** Cancelling frees exactly the booking's own interval in its own room. */
  lemma CancelFreesExactly(s: BookingState, id: nat, room: nat, t: Instant)
    requires Allocated(s) && id < |s.table|
    ensures Booked(Next(s, CancelId(id)).table, room, t) <==> Booked(s.table, room, t) && !s.table[id].Covers(room, t)
  {
    var after := Next(s, CancelId(id)).table;
    if Booked(s.table, room, t) && !s.table[id].Covers(room, t) {
      var i :| 0 <= i < |s.table| && s.table[i].Covers(room, t);
      assert after[i].Covers(room, t);
    }
    if s.table[id].Covers(room, t) {
      forall i | 0 <= i < |after| ensures !after[i].Covers(room, t) {
        if i != id {
          NoDoubleBooking(s, id, i, room, t);
        }
      }
    }
  }

  /** Booking and then cancelling leaves every room booked when it was before. */
  lemma CancelUndoesCreate(s: BookingState, create: Op, room: nat, t: Instant)
    requires Allocated(s) && create.Create? && Next(s, create) != s
    ensures Booked(Next(Next(s, create), CancelId(|s.table|)).table, room, t) <==> Booked(s.table, room, t)
  {
    var booked := Next(s, create);
    NextStaysAllocated(s, create);
    CancelFreesExactly(booked, |s.table|, room, t);
    assert forall i :: 0 <= i < |s.table| ==> booked.table[i] == s.table[i];
    assert |booked.table| == |s.table| + 1;
    if Booked(s.table, room, t) {
      var i :| 0 <= i < |s.table| && s.table[i].Covers(room, t);
      assert booked.table[i].Covers(room, t);
      NoDoubleBooking(booked, i, |s.table|, room, t);
    }
    hide Allocated, Next;
  }

  /** A request is in conflict exactly when some instant of it is booked. */
  lemma BusyIffBooked(s: BookingState, room: nat, start: Instant, end: Instant)
    requires Allocated(s) && start < end
    ensures Busy(s.table, room, start, end) <==> exists t :: start <= t < end && Booked(s.table, room, t)
  {
    if Busy(s.table, room, start, end) {
      var i :| 0 <= i < |s.table| && s.table[i].Overlaps(room, start, end);
      OverlapIffSharedInstant(s.table[i], room, start, end);
      var t :| start <= t < end && s.table[i].Covers(room, t);
      assert Booked(s.table, room, t);
    }
    if t :| start <= t < end && Booked(s.table, room, t) {
      var i :| 0 <= i < |s.table| && s.table[i].Covers(room, t);
      assert s.table[i].Overlaps(room, start, end);
    }
  }

  /** What a booking takes: the instants asked for, in the room asked for, and no others. */
  lemma CreateBooks(s: BookingState, create: Op, room: nat, t: Instant)
    requires create.Create? && Next(s, create) != s
    ensures Booked(Next(s, create).table, room, t)
       <==> Booked(s.table, room, t) || (room == create.room && create.start <= t < create.end)
  {
    var after := Next(s, create).table;
    assert |after| == |s.table| + 1;
    assert forall i :: 0 <= i < |s.table| ==> after[i] == s.table[i];
    if Booked(s.table, room, t) {
      var i :| 0 <= i < |s.table| && s.table[i].Covers(room, t);
      assert after[i].Covers(room, t);
    }
    assert after[|s.table|].Covers(room, t) <==> room == create.room && create.start <= t < create.end;
  }

  /** Only a cancellation touches a row that is there. */
  lemma {:induction false} RowStays(rooms: map<nat, bool>, ops: seq<Op>, id: nat, j: nat, k: nat)
    requires j <= k <= |ops| && id < |After(rooms, ops[..j]).table|
    requires forall m :: j <= m < k ==> ops[m] != CancelId(id)
    ensures id < |After(rooms, ops[..k]).table|
    ensures After(rooms, ops[..k]).table[id] == After(rooms, ops[..j]).table[id]
    decreases k
  {
    if j < k {
      RowStays(rooms, ops, id, j, k - 1);
      assert ops[..k][..k - 1] == ops[..k - 1];
      assert After(rooms, ops[..k]) == Next(After(rooms, ops[..k - 1]), ops[k - 1]);
      NextKeepsRow(After(rooms, ops[..k - 1]), ops[k - 1], id);
      hide After, Next;
    }
  }

  lemma NextKeepsRow(s: BookingState, op: Op, id: nat)
    requires id < |s.table| && op != CancelId(id)
    ensures id < |Next(s, op).table| && Next(s, op).table[id] == s.table[id]
  {
    hide Busy, FirstStoring;
  }

  /** What is booked stays booked: after a booking at step `j`, and until its cancellation, a
      request for the room that meets its interval is refused. */
  lemma BookedIsRefused(rooms: map<nat, bool>, ops: seq<Op>, j: nat, k: nat, request: Op)
    requires j < k <= |ops| && ops[j].Create? && After(rooms, ops[..j + 1]) != After(rooms, ops[..j])
    requires forall m :: j < m < k ==> ops[m] != CancelId(|After(rooms, ops[..j]).table|)
    requires request.Create? && request.room == ops[j].room
    requires request.start < ops[j].end && ops[j].start < request.end
    ensures Next(After(rooms, ops[..k]), request) == After(rooms, ops[..k])
  {
    var s, id := After(rooms, ops[..j]), |After(rooms, ops[..j]).table|;
    assert ops[..j + 1][..j] == ops[..j];
    assert After(rooms, ops[..j + 1]) == Next(s, ops[j]);
    RowStays(rooms, ops, id, j + 1, k);
    var row := After(rooms, ops[..k]).table[id];
    assert row.Overlaps(request.room, request.start, request.end);
    hide After, FirstStoring;
  }

  // Availability

  function Insert(b: Booking, slots: seq<Booking>): seq<Booking> {
    if slots == [] || b.start <= slots[0].start then [b] + slots
    else [slots[0]] + Insert(b, slots[1..])
  }

  /** `list_for_room_between`: overlapping confirmed bookings, by start time. */
  function SlotsBetween(table: Table, room: nat, lo: Instant, hi: Instant): seq<Booking> {
    if table == [] then []
    else
      var b, rest := table[|table| - 1], SlotsBetween(table[..|table| - 1], room, lo, hi);
      if b.Overlaps(room, lo, hi) then Insert(b, rest) else rest
  }

  /** Each slot is over before the next one starts. */
  ghost predicate InOrder(slots: seq<Booking>) {
    && (forall i :: 0 <= i < |slots| ==> slots[i].start < slots[i].end)
    && (forall i, j :: 0 <= i < j < |slots| ==> slots[i].end <= slots[j].start)
  }

  lemma {:induction false} InsertMembers(b: Booking, slots: seq<Booking>, x: Booking)
    ensures x in Insert(b, slots) <==> x == b || x in slots
  {
    if slots != [] && b.start > slots[0].start {
      assert slots == [slots[0]] + slots[1..];
      InsertMembers(b, slots[1..], x);
    }
  }

  lemma FirstInOrder(first: Booking, slots: seq<Booking>)
    requires InOrder(slots) && first.start < first.end
    requires forall x :: x in slots ==> first.end <= x.start
    ensures InOrder([first] + slots)
  {
    forall j | 0 <= j < |slots| ensures first.end <= slots[j].start {
      assert slots[j] in slots;
    }
  }

  lemma RestInOrder(slots: seq<Booking>)
    requires InOrder(slots) && slots != []
    ensures InOrder(slots[1..]) && slots[0].start < slots[0].end
    ensures forall x :: x in slots[1..] ==> slots[0].end <= x.start < x.end
  {
  }

  lemma {:induction false} InsertKeepsOrder(b: Booking, slots: seq<Booking>)
    requires b.start < b.end && InOrder(slots)
    requires forall x :: x in slots ==> x.end <= b.start || b.end <= x.start
    ensures InOrder(Insert(b, slots))
  {
    if slots == [] {
    } else {
      var first, rest := slots[0], slots[1..];
      assert slots == [first] + rest && first in slots;
      RestInOrder(slots);
      hide InOrder;
      if b.start <= first.start {
        forall x | x in slots ensures b.end <= x.start {
          assert x == first || x in rest;
        }
        FirstInOrder(b, slots);
      } else {
        InsertKeepsOrder(b, rest);
        forall x | x in Insert(b, rest) ensures first.end <= x.start {
          InsertMembers(b, rest, x);
        }
        FirstInOrder(first, Insert(b, rest));
      }
    }
  }

  /** The slots shown come in order without touching each other's time, and are exactly
      the overlapping bookings: inside the window a slot can be booked exactly when it
      meets none of them. */
  lemma {:induction false} AvailabilityIsExact(s: BookingState, n: nat, room: nat, lo: Instant, hi: Instant)
    requires Allocated(s) && n <= |s.table|
    ensures var slots := SlotsBetween(s.table[..n], room, lo, hi);
            && InOrder(slots)
            && (forall b :: b in slots <==> b in s.table[..n] && b.Overlaps(room, lo, hi))
    ensures forall start, end :: lo <= start < end <= hi ==>
              (Busy(s.table[..n], room, start, end) <==>
                 exists b :: b in SlotsBetween(s.table[..n], room, lo, hi) && b.Overlaps(room, start, end))
  {
    SlotsInOrder(s, n, room, lo, hi);
    var table, slots := s.table[..n], SlotsBetween(s.table[..n], room, lo, hi);
    forall start, end | lo <= start < end <= hi
      ensures Busy(table, room, start, end) <==> exists b :: b in slots && b.Overlaps(room, start, end)
    {
      if Busy(table, room, start, end) {
        var i :| 0 <= i < |table| && table[i].Overlaps(room, start, end);
        assert table[i] in table && table[i].Overlaps(room, lo, hi);
        assert table[i] in slots;
      }
    }
  }

  lemma {:induction false} SlotsInOrder(s: BookingState, n: nat, room: nat, lo: Instant, hi: Instant)
    requires Allocated(s) && n <= |s.table|
    ensures var slots := SlotsBetween(s.table[..n], room, lo, hi);
            && InOrder(slots)
            && (forall b :: b in slots <==> b in s.table[..n] && b.Overlaps(room, lo, hi))
  {
    if n > 0 {
      SlotsInOrder(s, n - 1, room, lo, hi);
      var b, rest := s.table[n - 1], s.table[..n - 1];
      assert s.table[..n][..n - 1] == rest;
      assert s.table[..n] == rest + [b];
      var slots := SlotsBetween(rest, room, lo, hi);
      if b.Overlaps(room, lo, hi) {
        forall x | x in slots ensures x.end <= b.start || b.end <= x.start {
          var k :| 0 <= k < |rest| && rest[k] == x;
          assert s.table[k] == x && !s.table[k].Overlaps(b.room, b.start, b.end);
        }
        InsertKeepsOrder(b, slots);
        forall x ensures x in Insert(b, slots) <==> x == b || x in slots {
          InsertMembers(b, slots, x);
        }
      }
    }
  }
}
