/** The Owner service's reservation engine. Every operation loads a
    reservation and, where it has one, its table; changes status, table
    binding, fee and check-in time; and saves both back. A failing operation
    is rolled back as a whole: on `Err` nothing changes. The clock is the
    `now` parameter, read once per operation. */
module Reservations {
  import opened Common
  import opened Domain
  import opened Stores
  import opened TableQueries
  import opened ReservationQueries
  import opened CheckinToken

  // ---------------------------------------------------------------------------
  // Specification of the transitions
  // ---------------------------------------------------------------------------

  /** Every stored table is stored under its own id. */
  predicate Keyed(tables: map<int, Table>) {
    forall id :: id in tables ==> tables[id].id == id
  }

  /** When `status` is the only status named `upper`, selecting by the status
      and selecting by its name pick the same ids. */
  lemma {:induction false} SameStatusIds(rows: map<int, Reservation>, status: ReservationStatus, upper: string)
    requires ReservationStatusName(status) == upper
    requires forall s :: ReservationStatusName(s) == upper ==> s == status
    ensures (set id | id in rows && rows[id].status == status)
         == (set id | id in rows && ReservationStatusName(rows[id].status) == upper)
  {
  }

  /** Outcome of `createReservation`: the saved reservation and the tables. */
  datatype Placement = Placement(reservation: Reservation, tables: map<int, Table>)

  /** `createReservation` for a request saved under `id` with check-in token
      `token`: the request starts PENDING; if an AVAILABLE table of the
      restaurant seats the party, the first of them (smallest capacity) is
      RESERVED for it and the reservation is CONFIRMED. The table is bound to
      the request's id, which a new request does not have yet. */
  function PlaceReservation(tables: map<int, Table>, request: Reservation, id: int, token: string): (p: Placement)
    ensures p.reservation.id == id && p.reservation.qrCode == Some(token)
    ensures p.reservation.status == Pending || p.reservation.status == Confirmed
    ensures p.reservation.status == Confirmed ==> p.reservation.tableId.Some?
    ensures p.reservation.status == Pending ==> p.tables == tables
  {
    var free := FindAvailableTablesWithCapacity(tables, request.restaurantId, request.numberOfGuests);
    if |free| > 0 then
      var t := free[0];
      Placement(request.(id := id, status := Confirmed, tableId := Some(t.id), qrCode := Some(token)),
                tables[t.id := t.(status := Reserved, currentReservationId := None)])
    else
      Placement(request.(id := id, status := Pending, qrCode := Some(token)), tables)
  }

  /** A reservation is confirmed exactly when some table qualifies; otherwise
      it stays PENDING with the table it was posted with and no table changes. */
  lemma {:induction false} PlacementConfirmedIffTableFits(tables: map<int, Table>, request: Reservation, id: int, token: string)
    ensures var confirmed := PlaceReservation(tables, request, id, token).reservation.status == Confirmed;
            confirmed <==> exists k :: k in tables && Qualifies(tables[k], request.restaurantId, request.numberOfGuests)
    ensures var p := PlaceReservation(tables, request, id, token);
            p.reservation.status != Confirmed ==>
              p.reservation.status == Pending && p.reservation.tableId == request.tableId && p.tables == tables
  {
    NoAvailableTable(tables, request.restaurantId, request.numberOfGuests);
  }

  /** The table a confirmed reservation gets qualifies and is a smallest one;
      it ends RESERVED but bound to no reservation, and no other table
      changes. */
  lemma {:induction false} PlacementTakesSmallestTable(tables: map<int, Table>, request: Reservation, id: int, token: string)
    requires Keyed(tables)
    requires PlaceReservation(tables, request, id, token).reservation.status == Confirmed
    ensures var p := PlaceReservation(tables, request, id, token);
            var tid := p.reservation.tableId.value;
            p.reservation.tableId.Some? && tid in tables
            && Qualifies(tables[tid], request.restaurantId, request.numberOfGuests)
            && (forall k :: k in tables && Qualifies(tables[k], request.restaurantId, request.numberOfGuests)
                  ==> tables[tid].capacity <= tables[k].capacity)
            && p.tables.Keys == tables.Keys
            && p.tables[tid].status == Reserved && p.tables[tid].currentReservationId == None
            && (forall k :: k in tables && k != tid ==> p.tables[k] == tables[k])
  {
    var free := FindAvailableTablesWithCapacity(tables, request.restaurantId, request.numberOfGuests);
    assert free[0] in free;
    var tid :| tid in tables && tables[tid] == free[0];
    forall k | k in tables && Qualifies(tables[k], request.restaurantId, request.numberOfGuests)
      ensures tables[tid].capacity <= tables[k].capacity
    {
      FirstAvailableIsSmallest(tables, request.restaurantId, request.numberOfGuests, k);
    }
  }

  /** The saved reservation keeps what was posted: customer, restaurant, time,
      party size, group flag, members; and it carries the token. */
  lemma {:induction false} PlacementKeepsRequest(tables: map<int, Table>, request: Reservation, id: int, token: string)
    ensures var r := PlaceReservation(tables, request, id, token).reservation;
            r.id == id && r.qrCode == Some(token)
            && r.customerId == request.customerId && r.restaurantId == request.restaurantId
            && r.reservationDateTime == request.reservationDateTime && r.numberOfGuests == request.numberOfGuests
            && r.isGroupReservation == request.isGroupReservation && r.groupMembers == request.groupMembers
            && (r.status == Pending || r.status == Confirmed)
  {
  }

  /** Placing a reservation keeps the members it was posted with. */
  lemma {:induction false} PlacementKeepsMembers(tables: map<int, Table>, request: Reservation, id: int, token: string)
    ensures PlaceReservation(tables, request, id, token).reservation.groupMembers == request.groupMembers
  {
  }

  /** The first qualifying table is stored under its own id. */
  lemma {:induction false} FirstFreeIsStored(tables: map<int, Table>, request: Reservation)
    requires Keyed(tables)
    requires |FindAvailableTablesWithCapacity(tables, request.restaurantId, request.numberOfGuests)| > 0
    ensures var t := FindAvailableTablesWithCapacity(tables, request.restaurantId, request.numberOfGuests)[0];
            t.id in tables && tables[t.id] == t
  {
    var free := FindAvailableTablesWithCapacity(tables, request.restaurantId, request.numberOfGuests);
    assert free[0] in free;
    var k :| k in tables && tables[k] == free[0];
  }

  /** The id and the token only fill in the saved reservation's two fields;
      the placement does not depend on them. */
  lemma {:induction false} PlacementWithIdAndToken(tables: map<int, Table>, request: Reservation, id: int, token: string)
    ensures var p0 := PlaceReservation(tables, request, 0, "");
            PlaceReservation(tables, request, id, token) == Placement(p0.reservation.(id := id, qrCode := Some(token)), p0.tables)
  {
  }

  /** The group member created for the e-mail address with guest number
      `guestId`, with its own check-in token. */
  function MemberFor(c: Codec, reservationId: int, email: string, guestId: int, now: int): GroupMember {
    NewGroupMember(email, email).(qrCode := Some(GenerateCheckinToken(c, reservationId, Some(guestId), now)))
  }

  /** Appending the member for the next address extends a correct prefix of
      the member list by one. */
  lemma {:induction false} AppendNextMember(c: Codec, reservationId: int, emails: seq<string>, now: int,
                                            members: seq<GroupMember>, member: GroupMember)
    requires |members| < |emails|
    requires forall k :: 0 <= k < |members| ==> members[k] == MemberFor(c, reservationId, emails[k], k + 1, now)
    requires member == MemberFor(c, reservationId, emails[|members|], |members| + 1, now)
    ensures forall k :: 0 <= k < |members| + 1 ==>
              (members + [member])[k] == MemberFor(c, reservationId, emails[k], k + 1, now)
  {
  }

  /** One member per e-mail address, in order, numbered from `firstGuestId`. */
  function GroupMembersFor(c: Codec, reservationId: int, emails: seq<string>, firstGuestId: int, now: int): (ms: seq<GroupMember>)
    ensures |ms| == |emails|
    ensures forall k :: 0 <= k < |emails| ==> ms[k] == MemberFor(c, reservationId, emails[k], firstGuestId + k, now)
  {
    seq(|emails|, k requires 0 <= k < |emails| => MemberFor(c, reservationId, emails[k], firstGuestId + k, now))
  }

  /** Member k (counting from 0) has the k-th address as name and e-mail, has
      not checked in, and carries a token for guest number `firstGuestId + k`. */
  lemma {:induction false} GroupMembersForFields(c: Codec, reservationId: int, emails: seq<string>, firstGuestId: int, now: int, k: int)
    requires 0 <= k < |emails|
    ensures var m := GroupMembersFor(c, reservationId, emails, firstGuestId, now)[k];
            m.guestName == emails[k] && m.guestEmail == emails[k] && !m.hasCheckedIn
            && m.qrCode == Some(GenerateCheckinToken(c, reservationId, Some(firstGuestId + k), now))
  {
  }

  /** Member k of a group (counting from 1) checks in with a token that names
      the reservation and guest k. */
  lemma {:induction false} GroupMemberTokenNamesGuest(c: Codec, reservationId: int, emails: seq<string>, now: int, k: int, at: int)
    requires Sound(c)
    requires 0 <= k < |emails|
    requires IsLong(reservationId) && IsLong(now + TokenValiditySeconds) && IsLong(k + 1)
    requires at <= now + TokenValiditySeconds
    ensures var v := ValidateToken(c, GroupMembersFor(c, reservationId, emails, 1, now)[k].qrCode.value, at);
            v.valid && v.reservationId == Some(reservationId) && v.guestId == Some(k + 1)
  {
    GroupMembersForFields(c, reservationId, emails, 1, now, k);
    ValidateGeneratedToken(c, reservationId, Some(k + 1), now, at);
  }

  const SingleCancellationFee: int := 1000
  const GroupCancellationFee: int := 2000
  const NoShowFeePerGuest: int := 1000

  /** Free while at least 30 whole minutes remain before the reservation
      (minutes are truncated toward zero); otherwise 10.00 for a single and
      20.00 for a group reservation. */
  function CalculateCancellationFee(reservation: Reservation, cancelTime: int): (fee: int)
    ensures fee == 0 <==> reservation.reservationDateTime - cancelTime >= 30 * 60
    ensures fee != 0 ==> fee == (if reservation.isGroupReservation then GroupCancellationFee else SingleCancellationFee)
  {
    var minutesUntilReservation := TruncDiv(reservation.reservationDateTime - cancelTime, 60);
    if minutesUntilReservation >= 30 then 0
    else if reservation.isGroupReservation then GroupCancellationFee
    else SingleCancellationFee
  }

  /** The absence fee: ten euros per guest, computed in Java `int` (the
      product wraps at 32 bits), in cents. */
  function NoShowFee(numberOfGuests: int): (fee: int)
    ensures 0 <= numberOfGuests * 10 < 0x8000_0000 ==> fee == numberOfGuests * NoShowFeePerGuest
    ensures fee % 100 == 0
  {
    WrapInt32(numberOfGuests * 10) * 100
  }

  /** A reservation marked as a no-show: NO_SHOW, charged the absence fee. */
  function MarkedNoShow(x: Reservation): (y: Reservation)
    ensures y.status == NoShow && y.cancellationFee == NoShowFee(x.numberOfGuests)
    ensures y.id == x.id && y.tableId == x.tableId && y.numberOfGuests == x.numberOfGuests
  {
    x.(status := NoShow, cancellationFee := NoShowFee(x.numberOfGuests))
  }

  /** The tables once the reservation's table (if it has one and it exists) is
      put in `status` and unbound. */
  function ReleaseTable(tables: map<int, Table>, tableId: Option<int>, status: TableStatus): (r: map<int, Table>)
    ensures r.Keys == tables.Keys
    ensures forall id :: id in tables && Some(id) != tableId ==> r[id] == tables[id]
    ensures tableId.Some? && tableId.value in tables ==>
              r[tableId.value] == tables[tableId.value].(status := status, currentReservationId := None)
  {
    if tableId.Some? && tableId.value in tables then
      tables[tableId.value := tables[tableId.value].(status := status, currentReservationId := None)]
    else tables
  }

  /** Releasing a table keeps every table stored under its own id. */
  lemma {:induction false} ReleaseKeepsKeyed(tables: map<int, Table>, tableId: Option<int>, status: TableStatus)
    requires Keyed(tables)
    ensures Keyed(ReleaseTable(tables, tableId, status))
  {
  }

  /** Which statuses each operation accepts. */
  predicate CanCancel(s: ReservationStatus) { s != Cancelled && s != Completed }
  predicate CanCheckIn(s: ReservationStatus) { s == Confirmed || s == Pending }
  predicate CanComplete(s: ReservationStatus) { s == CheckedIn || s == TimeoutWarning }

  /** No reservation can be both completed and cancelled from the same status,
      and a completed reservation can neither be cancelled nor checked in. */
  lemma {:induction false} TerminalStatuses(s: ReservationStatus)
    ensures s == Completed ==> !CanCancel(s) && !CanCheckIn(s) && !CanComplete(s)
    ensures s == Cancelled ==> !CanCancel(s) && !CanCheckIn(s) && !CanComplete(s)
    ensures CanCheckIn(s) ==> CanCancel(s) && !CanComplete(s)
  {
  }

  // ---------------------------------------------------------------------------
  // The service
  // ---------------------------------------------------------------------------

  class ResService {
    const reservations: ReservationRepository
    const tables: TableRepository
    const codec: Codec

    ghost predicate Valid()
      reads this, reservations, tables
    {
      reservations.Valid() && tables.Valid()
    }

    constructor(reservations: ReservationRepository, tables: TableRepository, codec: Codec)
      requires reservations.Valid() && tables.Valid()
      ensures this.reservations == reservations && this.tables == tables && this.codec == codec
      ensures Valid()
    {
      this.reservations := reservations;
      this.tables := tables;
      this.codec := codec;
    }

    /** Every stored reservation, each once. */
    function GetAllReservations(): (r: seq<Reservation>)
      reads this, reservations
      ensures forall x :: x in r <==> x in reservations.rows.Values
      ensures |r| == |reservations.rows.Keys|
    {
      FindAll(reservations.rows)
    }

    /** Fails for an unknown id. */
    method GetReservationById(id: int) returns (r: Result<Reservation>)
      ensures r.Ok? <==> id in reservations.rows
      ensures r.Ok? ==> r.value == reservations.rows[id]
      ensures r.Err? ==> r.error == ReservationNotFound(id)
    {
      if id in reservations.rows {
        r := Ok(reservations.rows[id]);
      } else {
        r := Err(ReservationNotFound(id));
      }
    }

    /** The table step of `createReservation`: the request, set PENDING, gets
        the first table that fits, which becomes RESERVED; the request is then
        CONFIRMED. */
    method ReserveFirstFittingTable(reservation: Reservation) returns (request: Reservation)
      requires Valid()
      modifies tables
      ensures Valid() && tables.nextId == old(tables.nextId)
      ensures var p := PlaceReservation(old(tables.rows), reservation, 0, "");
              request == p.reservation.(id := reservation.id, qrCode := reservation.qrCode) && tables.rows == p.tables
    {
      request := reservation.(status := Pending);
      // The status change leaves the restaurant and the party size as posted.
      var free := FindAvailableTablesWithCapacity(tables.rows, reservation.restaurantId, reservation.numberOfGuests);
      if |free| > 0 {
        var table := free[0];
        FirstFreeIsStored(tables.rows, reservation);
        request := request.(tableId := Some(table.id));
        table := table.(status := Reserved, currentReservationId := None);
        tables.Update(table);
        request := request.(status := Confirmed);
      }
    }

    /** Saves the request, placing it at a table if one fits, and stores a
        check-in token for the saved id with no guest. */
    method CreateReservation(reservation: Reservation, now: int) returns (saved: Reservation)
      requires Valid()
      modifies reservations, tables
      ensures Valid()
      ensures var p := PlaceReservation(old(tables.rows), reservation, old(reservations.nextId),
                                        GenerateCheckinToken(codec, old(reservations.nextId), None, now));
              saved == p.reservation && tables.rows == p.tables
      ensures reservations.rows == old(reservations.rows)[saved.id := saved]
      ensures reservations.nextId == old(reservations.nextId) + 1 && tables.nextId == old(tables.nextId)
    {
      ghost var tables0, id0 := tables.rows, reservations.nextId;
      var request := ReserveFirstFittingTable(reservation);
      PlacementWithIdAndToken(tables0, reservation, id0, GenerateCheckinToken(codec, id0, None, now));
      saved := request.(id := reservations.nextId);
      reservations.rows := reservations.rows[saved.id := saved];
      reservations.nextId := reservations.nextId + 1;
      var qrToken := GenerateCheckinToken(codec, saved.id, None, now);
      saved := saved.(qrCode := Some(qrToken));
      reservations.rows := reservations.rows[saved.id := saved];
    }

    /** Sets the table and promotes PENDING to CONFIRMED; any other status is
        kept. */
    method UpdateReservationTable(reservationId: int, tableId: int) returns (r: Result<()>)
      requires Valid()
      modifies reservations
      ensures Valid() && reservations.nextId == old(reservations.nextId)
      ensures reservationId !in old(reservations.rows) ==>
                r == Err(ReservationNotFound(reservationId)) && reservations.rows == old(reservations.rows)
      ensures reservationId in old(reservations.rows) ==>
                var before := old(reservations.rows[reservationId]);
                r == Ok(())
                && reservations.rows == old(reservations.rows)[reservationId := before.(
                     tableId := Some(tableId),
                     status := if before.status == Pending then Confirmed else before.status)]
    {
      var found := GetReservationById(reservationId);
      if found.Err? {
        return Err(found.error);
      }
      var reservation := found.value.(tableId := Some(tableId));
      if reservation.status == Pending {
        reservation := reservation.(status := Confirmed);
      }
      reservations.rows := reservations.rows[reservationId := reservation];
      r := Ok(());
    }

    /** A group reservation: created like a single one with the group flag
        set, then one member per e-mail address in list order, member k
        (from 1) carrying a token for guest k. */
    method CreateGroupReservation(reservation: Reservation, guestEmails: seq<string>, now: int) returns (saved: Reservation)
      requires Valid()
      modifies reservations, tables
      ensures Valid()
      ensures var p := PlaceReservation(old(tables.rows), reservation.(isGroupReservation := true), old(reservations.nextId),
                                        GenerateCheckinToken(codec, old(reservations.nextId), None, now));
              saved == p.reservation.(groupMembers := reservation.groupMembers
                                                      + GroupMembersFor(codec, saved.id, guestEmails, 1, now))
              && tables.rows == p.tables
      ensures reservations.rows == old(reservations.rows)[saved.id := saved]
      ensures reservations.nextId == old(reservations.nextId) + 1 && tables.nextId == old(tables.nextId)
    {
      var request := reservation.(isGroupReservation := true);
      ghost var tables0, id0 := tables.rows, reservations.nextId;
      saved := CreateReservation(request, now);
      PlacementKeepsMembers(tables0, request, id0, GenerateCheckinToken(codec, id0, None, now));
      var added := GroupMembersOf(saved.id, guestEmails, now);
      saved := saved.(groupMembers := saved.groupMembers + added);
      reservations.rows := reservations.rows[saved.id := saved];
    }

    /** The loop of `createGroupReservation`: one member per e-mail address,
        in list order, with guest numbers counted up from 1. */
    method GroupMembersOf(reservationId: int, guestEmails: seq<string>, now: int) returns (members: seq<GroupMember>)
      ensures members == GroupMembersFor(codec, reservationId, guestEmails, 1, now)
    {
      members := [];
      var guestIdCounter := 1;
      var i := 0;
      while i < |guestEmails|
        invariant 0 <= i <= |guestEmails| && guestIdCounter == i + 1
        invariant |members| == i
        invariant forall k :: 0 <= k < i ==> members[k] == MemberFor(codec, reservationId, guestEmails[k], k + 1, now)
      {
        var member := NewGroupMember(guestEmails[i], guestEmails[i]);
        member := member.(qrCode := Some(GenerateCheckinToken(codec, reservationId, Some(guestIdCounter), now)));
        AppendNextMember(codec, reservationId, guestEmails, now, members, member);
        members := members + [member];
        guestIdCounter := guestIdCounter + 1;
        i := i + 1;
      }
    }

    /** Puts the reservation's table, if it has one that exists, in `status`
        and unbinds it. */
    method ReleaseTableOf(tableId: Option<int>, status: TableStatus)
      requires Valid()
      modifies tables
      ensures Valid() && tables.nextId == old(tables.nextId)
      ensures tables.rows == ReleaseTable(old(tables.rows), tableId, status)
    {
      if tableId.Some? && tableId.value in tables.rows {
        var table := tables.rows[tableId.value];
        table := table.(status := status, currentReservationId := None);
        tables.rows := tables.rows[tableId.value := table];
      }
    }

    /** Refuses CANCELLED and COMPLETED reservations; otherwise CANCELLED with
        the cancellation fee, and its table AVAILABLE and unbound. */
    method CancelReservation(id: int, cancelTime: int) returns (r: Result<Reservation>)
      requires Valid()
      modifies reservations, tables
      ensures Valid() && reservations.nextId == old(reservations.nextId) && tables.nextId == old(tables.nextId)
      ensures id !in old(reservations.rows) ==> r == Err(ReservationNotFound(id))
      ensures id in old(reservations.rows) && !CanCancel(old(reservations.rows[id]).status) ==>
                r == Err(CannotCancel(old(reservations.rows[id]).status))
      ensures r.Err? ==> reservations.rows == old(reservations.rows) && tables.rows == old(tables.rows)
      ensures id in old(reservations.rows) && CanCancel(old(reservations.rows[id]).status) ==>
                var before := old(reservations.rows[id]);
                r == Ok(before.(cancellationFee := CalculateCancellationFee(before, cancelTime), status := Cancelled))
                && reservations.rows == old(reservations.rows)[id := r.value]
                && tables.rows == ReleaseTable(old(tables.rows), before.tableId, Available)
    {
      var found := GetReservationById(id);
      if found.Err? {
        return Err(found.error);
      }
      var reservation := found.value;
      if reservation.status == Cancelled || reservation.status == Completed {
        return Err(CannotCancel(reservation.status));
      }
      var fee := CalculateCancellationFee(reservation, cancelTime);
      reservation := reservation.(cancellationFee := fee, status := Cancelled);
      ReleaseTableOf(reservation.tableId, Available);
      reservations.rows := reservations.rows[id := reservation];
      r := Ok(reservation);
    }

    /** Accepts PENDING or CONFIRMED reservations with a table: CHECKED_IN at
        `now`, and the table OCCUPIED and bound to this reservation whatever
        it was bound to before. */
    method CheckIn(reservationId: int, now: int) returns (r: Result<Reservation>)
      requires Valid()
      modifies reservations, tables
      ensures Valid() && reservations.nextId == old(reservations.nextId) && tables.nextId == old(tables.nextId)
      ensures r.Err? ==> reservations.rows == old(reservations.rows) && tables.rows == old(tables.rows)
      ensures reservationId !in old(reservations.rows) ==> r == Err(ReservationNotFound(reservationId))
      ensures reservationId in old(reservations.rows) ==>
                var before := old(reservations.rows[reservationId]);
                (!CanCheckIn(before.status) ==> r == Err(CannotCheckIn(before.status)))
                && (CanCheckIn(before.status) && before.tableId == None ==> r == Err(NoTableAssigned(reservationId)))
                && (CanCheckIn(before.status) && before.tableId.Some? && before.tableId.value !in old(tables.rows) ==>
                      r == Err(TableNotFound(before.tableId.value)))
                && (CanCheckIn(before.status) && before.tableId.Some? && before.tableId.value in old(tables.rows) ==>
                      r == Ok(before.(status := CheckedIn, checkedInAt := Some(now)))
                      && reservations.rows == old(reservations.rows)[reservationId := r.value]
                      && tables.rows == old(tables.rows)[before.tableId.value :=
                           old(tables.rows[before.tableId.value]).(status := Occupied,
                                                                  currentReservationId := Some(reservationId))])
    {
      var found := GetReservationById(reservationId);
      if found.Err? {
        return Err(found.error);
      }
      var reservation := found.value;
      if reservation.status != Confirmed && reservation.status != Pending {
        return Err(CannotCheckIn(reservation.status));
      }
      if reservation.tableId == None {
        return Err(NoTableAssigned(reservationId));
      }
      reservation := reservation.(status := CheckedIn, checkedInAt := Some(now));
      var tableId := reservation.tableId.value;
      if tableId !in tables.rows {
        return Err(TableNotFound(tableId));
      }
      var table := tables.rows[tableId];
      table := table.(status := Occupied, currentReservationId := Some(reservationId));
      tables.rows := tables.rows[tableId := table];
      reservations.rows := reservations.rows[reservationId := reservation];
      r := Ok(reservation);
    }

    /** A guest without reservation: a CHECKED_IN reservation of customer 0 for
        the table's restaurant at `now`, and the table OCCUPIED by it. */
    method CreateWalkIn(tableId: int, numberOfGuests: int, now: int) returns (r: Result<Reservation>)
      requires Valid()
      modifies reservations, tables
      ensures Valid() && tables.nextId == old(tables.nextId)
      ensures tableId !in old(tables.rows) ==>
                r == Err(TableNotFound(tableId))
                && reservations.rows == old(reservations.rows) && reservations.nextId == old(reservations.nextId)
                && tables.rows == old(tables.rows)
      ensures tableId in old(tables.rows) ==>
                var id := old(reservations.nextId);
                r == Ok(BlankReservation(id).(tableId := Some(tableId), restaurantId := old(tables.rows[tableId]).restaurantId,
                                              numberOfGuests := numberOfGuests, reservationDateTime := now,
                                              status := CheckedIn, checkedInAt := Some(now), customerId := 0))
                && reservations.rows == old(reservations.rows)[id := r.value] && reservations.nextId == id + 1
                && tables.rows == old(tables.rows)[tableId := old(tables.rows[tableId]).(status := Occupied,
                                                                                        currentReservationId := Some(id))]
    {
      if tableId !in tables.rows {
        return Err(TableNotFound(tableId));
      }
      var table := tables.rows[tableId];
      var walkIn := BlankReservation(reservations.nextId);
      walkIn := walkIn.(tableId := Some(tableId), restaurantId := table.restaurantId, numberOfGuests := numberOfGuests);
      walkIn := walkIn.(reservationDateTime := now, status := CheckedIn, checkedInAt := Some(now), customerId := 0);
      reservations.rows := reservations.rows[walkIn.id := walkIn];
      reservations.nextId := reservations.nextId + 1;
      table := table.(status := Occupied, currentReservationId := Some(walkIn.id));
      tables.rows := tables.rows[tableId := table];
      r := Ok(walkIn);
    }

    /** Accepts CHECKED_IN or TIMEOUT_WARNING reservations: COMPLETED, and the
        table CLEANING and unbound. */
    method CompleteReservation(reservationId: int) returns (r: Result<Reservation>)
      requires Valid()
      modifies reservations, tables
      ensures Valid() && reservations.nextId == old(reservations.nextId) && tables.nextId == old(tables.nextId)
      ensures reservationId !in old(reservations.rows) ==> r == Err(ReservationNotFound(reservationId))
      ensures reservationId in old(reservations.rows) && !CanComplete(old(reservations.rows[reservationId]).status) ==>
                r == Err(CannotComplete(old(reservations.rows[reservationId]).status))
      ensures r.Err? ==> reservations.rows == old(reservations.rows) && tables.rows == old(tables.rows)
      ensures reservationId in old(reservations.rows) && CanComplete(old(reservations.rows[reservationId]).status) ==>
                var before := old(reservations.rows[reservationId]);
                r == Ok(before.(status := Completed))
                && reservations.rows == old(reservations.rows)[reservationId := r.value]
                && tables.rows == ReleaseTable(old(tables.rows), before.tableId, Cleaning)
    {
      var found := GetReservationById(reservationId);
      if found.Err? {
        return Err(found.error);
      }
      var reservation := found.value;
      if reservation.status != CheckedIn && reservation.status != TimeoutWarning {
        return Err(CannotComplete(reservation.status));
      }
      reservation := reservation.(status := Completed);
      ReleaseTableOf(reservation.tableId, Cleaning);
      reservations.rows := reservations.rows[reservationId := reservation];
      r := Ok(reservation);
    }

    /** From any status: NO_SHOW with the absence fee, and the table
        AVAILABLE and unbound. */
    method MarkAsNoShow(reservationId: int) returns (r: Result<Reservation>)
      requires Valid()
      modifies reservations, tables
      ensures Valid() && reservations.nextId == old(reservations.nextId) && tables.nextId == old(tables.nextId)
      ensures reservationId !in old(reservations.rows) ==>
                r == Err(ReservationNotFound(reservationId))
                && reservations.rows == old(reservations.rows) && tables.rows == old(tables.rows)
      ensures reservationId in old(reservations.rows) ==>
                var before := old(reservations.rows[reservationId]);
                r == Ok(MarkedNoShow(before))
                && reservations.rows == old(reservations.rows)[reservationId := r.value]
                && tables.rows == ReleaseTable(old(tables.rows), before.tableId, Available)
    {
      var found := GetReservationById(reservationId);
      if found.Err? {
        return Err(found.error);
      }
      var reservation := found.value.(status := NoShow);
      var absenceFee := NoShowFee(reservation.numberOfGuests);
      reservation := reservation.(cancellationFee := absenceFee);
      ReleaseTableOf(reservation.tableId, Available);
      reservations.rows := reservations.rows[reservationId := reservation];
      r := Ok(reservation);
    }

    /** From any status: TIMEOUT_WARNING; the table is not touched. */
    method MarkTimeoutWarning(reservationId: int) returns (r: Result<Reservation>)
      requires Valid()
      modifies reservations
      ensures Valid() && reservations.nextId == old(reservations.nextId)
      ensures reservationId !in old(reservations.rows) ==>
                r == Err(ReservationNotFound(reservationId)) && reservations.rows == old(reservations.rows)
      ensures reservationId in old(reservations.rows) ==>
                r == Ok(old(reservations.rows[reservationId]).(status := TimeoutWarning))
                && reservations.rows == old(reservations.rows)[reservationId := r.value]
    {
      var found := GetReservationById(reservationId);
      if found.Err? {
        return Err(found.error);
      }
      var reservation := found.value.(status := TimeoutWarning);
      reservations.rows := reservations.rows[reservationId := reservation];
      r := Ok(reservation);
    }

    /** Removes the reservation after freeing its table (AVAILABLE, unbound). */
    method DeleteReservation(id: int) returns (r: Result<()>)
      requires Valid()
      modifies reservations, tables
      ensures Valid() && reservations.nextId == old(reservations.nextId) && tables.nextId == old(tables.nextId)
      ensures id !in old(reservations.rows) ==>
                r == Err(ReservationNotFound(id))
                && reservations.rows == old(reservations.rows) && tables.rows == old(tables.rows)
      ensures id in old(reservations.rows) ==>
                r == Ok(()) && reservations.rows == old(reservations.rows) - {id}
                && tables.rows == ReleaseTable(old(tables.rows), old(reservations.rows[id]).tableId, Available)
    {
      var found := GetReservationById(id);
      if found.Err? {
        return Err(found.error);
      }
      var reservation := found.value;
      ReleaseTableOf(reservation.tableId, Available);
      reservations.rows := reservations.rows - {id};
      r := Ok(());
    }

    /** CONFIRMED reservations more than 15 minutes overdue without check-in. */
    function FindPotentialNoShowsAt(now: int): (r: seq<Reservation>)
      reads this, reservations
      ensures forall x :: x in r <==> x in reservations.rows.Values && IsPotentialNoShow(x, now - 15 * 60)
      ensures |r| == |set id | id in reservations.rows && IsPotentialNoShow(reservations.rows[id], now - 15 * 60)|
    {
      FindPotentialNoShows(reservations.rows, now - 15 * 60)
    }

    /** CHECKED_IN reservations checked in more than 120 minutes ago. */
    function FindTimeoutCandidatesAt(now: int): (r: seq<Reservation>)
      reads this, reservations
      ensures forall x :: x in r <==> x in reservations.rows.Values && IsTimeoutCandidate(x, now - 120 * 60)
      ensures |r| == |set id | id in reservations.rows && IsTimeoutCandidate(reservations.rows[id], now - 120 * 60)|
    {
      FindTimeoutCandidates(reservations.rows, now - 120 * 60)
    }

    /** The reservations currently checked in. */
    function GetActiveReservations(): (r: seq<Reservation>)
      reads this, reservations
      ensures forall x :: x in r <==> x in reservations.rows.Values && x.status == CheckedIn
      ensures |r| == |set id | id in reservations.rows && reservations.rows[id].status == CheckedIn|
    {
      FindActiveReservations(reservations.rows)
    }

    /** The reservations in the status named (in any letter case); an unknown
        name is an error. */
    function GetReservationsByStatus(name: string): (r: Result<seq<Reservation>>)
      reads this, reservations
      ensures r.Err? <==> forall s :: ReservationStatusName(s) != ToUpper(name)
      ensures r.Err? ==> r.error == InvalidReservationStatus(name)
      ensures r.Ok? ==> forall x :: x in r.value <==>
                          x in reservations.rows.Values && ReservationStatusName(x.status) == ToUpper(name)
      ensures r.Ok? ==> |r.value| == |set id | id in reservations.rows && ReservationStatusName(reservations.rows[id].status) == ToUpper(name)|
    {
      match ParseReservationStatus(ToUpper(name))
      case None =>
        assert forall s :: ParseReservationStatus(ReservationStatusName(s)) == Some(s) by {
          forall s { ParseReservationStatusName(s); }
        }
        Err(InvalidReservationStatus(name))
      case Some(status) =>
        var found := FindByStatus(reservations.rows, status);
        assert forall s :: ReservationStatusName(s) == ToUpper(name) ==> s == status by {
          forall s | ReservationStatusName(s) == ToUpper(name)
            ensures s == status
          {
            ParseReservationStatusName(s);
          }
        }
        SameStatusIds(reservations.rows, status, ToUpper(name));
        Ok(found)
    }
  }
}
