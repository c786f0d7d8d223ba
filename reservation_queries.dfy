/** The Owner service's reservation queries over the stored reservations (a map
    from id to row). Each query lists every matching row once; only an ORDER
    BY fixes the order the contract states. */
module ReservationQueries {
  import opened Common
  import opened Domain

  function FindByCustomerId(rows: map<int, Reservation>, customerId: int): (r: seq<Reservation>)
    ensures forall x :: x in r ==> x in rows.Values && x.customerId == customerId
    ensures forall id :: id in rows && rows[id].customerId == customerId ==> rows[id] in r
    ensures |r| == |set id | id in rows && rows[id].customerId == customerId|
  {
    var keep, key := (x: Reservation) => x.customerId == customerId, (x: Reservation) => 0;
    SelectCount(rows, keep, key, set id | id in rows && rows[id].customerId == customerId);
    Select(rows, keep, key)
  }

  function FindByRestaurantId(rows: map<int, Reservation>, restaurantId: int): (r: seq<Reservation>)
    ensures forall x :: x in r ==> x in rows.Values && x.restaurantId == restaurantId
    ensures forall id :: id in rows && rows[id].restaurantId == restaurantId ==> rows[id] in r
    ensures |r| == |set id | id in rows && rows[id].restaurantId == restaurantId|
  {
    var keep, key := (x: Reservation) => x.restaurantId == restaurantId, (x: Reservation) => 0;
    SelectCount(rows, keep, key, set id | id in rows && rows[id].restaurantId == restaurantId);
    Select(rows, keep, key)
  }

  function FindByStatus(rows: map<int, Reservation>, status: ReservationStatus): (r: seq<Reservation>)
    ensures forall x :: x in r ==> x in rows.Values && x.status == status
    ensures forall id :: id in rows && rows[id].status == status ==> rows[id] in r
    ensures |r| == |set id | id in rows && rows[id].status == status|
  {
    var keep, key := (x: Reservation) => x.status == status, (x: Reservation) => 0;
    SelectCount(rows, keep, key, set id | id in rows && rows[id].status == status);
    Select(rows, keep, key)
  }

  function FindByRestaurantIdAndStatus(rows: map<int, Reservation>, restaurantId: int, status: ReservationStatus): (r: seq<Reservation>)
    ensures forall x :: x in r ==> x in rows.Values && x.restaurantId == restaurantId && x.status == status
    ensures forall id :: id in rows ==>
              (rows[id].restaurantId == restaurantId && rows[id].status == status ==> rows[id] in r)
    ensures |r| == |set id | id in rows && rows[id].restaurantId == restaurantId && rows[id].status == status|
  {
    var keep, key := (x: Reservation) => x.restaurantId == restaurantId && x.status == status, (x: Reservation) => 0;
    SelectCount(rows, keep, key, set id | id in rows && rows[id].restaurantId == restaurantId && rows[id].status == status);
    Select(rows, keep, key)
  }

  /** BETWEEN: both ends of the range are included. */
  function FindByDateRange(rows: map<int, Reservation>, startDate: int, endDate: int): (r: seq<Reservation>)
    ensures forall x :: x in r ==> x in rows.Values && startDate <= x.reservationDateTime <= endDate
    ensures forall id :: id in rows && startDate <= rows[id].reservationDateTime <= endDate ==> rows[id] in r
    ensures |r| == |set id | id in rows && startDate <= rows[id].reservationDateTime <= endDate|
  {
    var keep, key := (x: Reservation) => startDate <= x.reservationDateTime <= endDate, (x: Reservation) => 0;
    SelectCount(rows, keep, key, set id | id in rows && startDate <= rows[id].reservationDateTime <= endDate);
    Select(rows, keep, key)
  }

  /** A reservation that was CONFIRMED for a time strictly before `cutoff` and
      has not been checked in. */
  predicate IsPotentialNoShow(x: Reservation, cutoff: int) {
    x.status == Confirmed && x.reservationDateTime < cutoff && x.checkedInAt == None
  }

  function FindPotentialNoShows(rows: map<int, Reservation>, cutoff: int): (r: seq<Reservation>)
    ensures forall x :: x in r ==> x in rows.Values && IsPotentialNoShow(x, cutoff)
    ensures forall id :: id in rows && IsPotentialNoShow(rows[id], cutoff) ==> rows[id] in r
    ensures |r| == |set id | id in rows && IsPotentialNoShow(rows[id], cutoff)|
  {
    var keep, key := (x: Reservation) => IsPotentialNoShow(x, cutoff), (x: Reservation) => 0;
    SelectCount(rows, keep, key, set id | id in rows && IsPotentialNoShow(rows[id], cutoff));
    Select(rows, keep, key)
  }

  /** A CHECKED_IN reservation whose check-in lies strictly before `cutoff`
      (a missing check-in time never compares as earlier). */
  predicate IsTimeoutCandidate(x: Reservation, cutoff: int) {
    x.status == CheckedIn && x.checkedInAt.Some? && x.checkedInAt.value < cutoff
  }

  function FindTimeoutCandidates(rows: map<int, Reservation>, cutoff: int): (r: seq<Reservation>)
    ensures forall x :: x in r ==> x in rows.Values && IsTimeoutCandidate(x, cutoff)
    ensures forall id :: id in rows && IsTimeoutCandidate(rows[id], cutoff) ==> rows[id] in r
    ensures |r| == |set id | id in rows && IsTimeoutCandidate(rows[id], cutoff)|
  {
    var keep, key := (x: Reservation) => IsTimeoutCandidate(x, cutoff), (x: Reservation) => 0;
    SelectCount(rows, keep, key, set id | id in rows && IsTimeoutCandidate(rows[id], cutoff));
    Select(rows, keep, key)
  }

  /** The reservations currently checked in. */
  function FindActiveReservations(rows: map<int, Reservation>): (r: seq<Reservation>)
    ensures forall x :: x in r ==> x in rows.Values && x.status == CheckedIn
    ensures forall id :: id in rows && rows[id].status == CheckedIn ==> rows[id] in r
    ensures |r| == |set id | id in rows && rows[id].status == CheckedIn|
  {
    FindByStatus(rows, CheckedIn)
  }

  /** A CONFIRMED or CHECKED_IN reservation on the table whose span
      [start, start + duration] meets the closed interval [startTime, endTime]. */
  predicate Blocks(x: Reservation, tableId: int, startTime: int, endTime: int) {
    x.tableId == Some(tableId)
    && (x.status == Confirmed || x.status == CheckedIn)
    && x.reservationDateTime <= endTime
    && x.reservationDateTime + x.durationMinutes * 60 >= startTime
  }

  /** COUNT of the blocking reservations is zero. */
  function IsTableAvailable(rows: map<int, Reservation>, tableId: int, startTime: int, endTime: int): (b: bool)
    ensures !b <==> exists id :: id in rows && Blocks(rows[id], tableId, startTime, endTime)
  {
    var blocking := Select(rows, (x: Reservation) => Blocks(x, tableId, startTime, endTime), (x: Reservation) => 0);
    if |blocking| > 0 then
      assert blocking[0] in blocking;
      false
    else
      true
  }

  /** Two reservations touching at a single instant already conflict: the
      overlap test is on closed intervals. */
  lemma {:induction false} TouchingIntervalBlocks(x: Reservation, tableId: int)
    requires x.tableId == Some(tableId) && x.status == Confirmed && x.durationMinutes >= 0
    ensures Blocks(x, tableId, x.reservationDateTime + x.durationMinutes * 60, x.reservationDateTime + x.durationMinutes * 60 + 3600)
    ensures Blocks(x, tableId, x.reservationDateTime - 3600, x.reservationDateTime)
  {
  }
}
