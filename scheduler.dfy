/** The Owner service's periodic jobs: every minute, overdue CONFIRMED
    reservations become NO_SHOW and long CHECKED_IN ones get a
    TIMEOUT_WARNING. Each job takes one snapshot of the candidates and then
    handles them one by one; a candidate whose update fails is skipped and
    the others are still handled. */
module Scheduler {
  import opened Common
  import opened Domain
  import opened ReservationQueries
  import opened Reservations

  /** The ids of a list of reservations. */
  function IdsOf(rs: seq<Reservation>): set<int> {
    set k | 0 <= k < |rs| :: rs[k].id
  }

  /** The rows after `f` is applied, in list order, to the stored row of each
      listed reservation that is still stored. */
  function ApplyEach(rows: map<int, Reservation>, rs: seq<Reservation>, f: Reservation -> Reservation): (r: map<int, Reservation>)
    ensures r.Keys == rows.Keys
    ensures forall id :: id in rows && id !in IdsOf(rs) ==> r[id] == rows[id]
    decreases |rs|
  {
    if rs == [] then rows
    else
      var before := ApplyEach(rows, rs[..|rs| - 1], f);
      var id := rs[|rs| - 1].id;
      if id in before then before[id := f(before[id])] else before
  }

  /** With an idempotent update, each listed row is updated once, whatever
      the repetitions in the list, and every other row is left alone. */
  lemma {:induction false} ApplyEachEffect(rows: map<int, Reservation>, rs: seq<Reservation>, f: Reservation -> Reservation)
    requires forall x :: f(f(x)) == f(x)
    ensures ApplyEach(rows, rs, f).Keys == rows.Keys
    ensures forall id :: id in rows ==>
              ApplyEach(rows, rs, f)[id] == if id in IdsOf(rs) then f(rows[id]) else rows[id]
    decreases |rs|
  {
    if rs != [] {
      var init := rs[..|rs| - 1];
      ApplyEachEffect(rows, init, f);
      assert IdsOf(rs) == IdsOf(init) + {rs[|rs| - 1].id} by {
        forall id | id in IdsOf(rs) ensures id in IdsOf(init) + {rs[|rs| - 1].id} {
          var k :| 0 <= k < |rs| && rs[k].id == id;
          if k < |rs| - 1 { assert init[k] == rs[k]; }
        }
        forall id | id in IdsOf(init) ensures id in IdsOf(rs) {
          var k :| 0 <= k < |init| && init[k].id == id;
          assert rs[k] == init[k];
        }
      }
    }
  }

  /** The row of a listed reservation is still stored, midway through the
      list, with the table it had. */
  lemma {:induction false} ListedRowStored(rows: map<int, Reservation>, rs: seq<Reservation>, i: int, f: Reservation -> Reservation)
    requires forall id :: id in rows ==> rows[id].id == id
    requires forall x :: f(f(x)) == f(x)
    requires forall x :: f(x).tableId == x.tableId
    requires 0 <= i < |rs| && rs[i] in rows.Values
    ensures rs[i].id in ApplyEach(rows, rs[..i], f)
    ensures ApplyEach(rows, rs[..i], f)[rs[i].id].tableId == rs[i].tableId
    ensures ApplyEach(rows, rs[..i + 1], f) == ApplyEach(rows, rs[..i], f)[rs[i].id := f(ApplyEach(rows, rs[..i], f)[rs[i].id])]
  {
    if forall k :: k in rows ==> rows[k] != rs[i] {
      assert false;
    }
    var k :| k in rows && rows[k] == rs[i];
    ApplyEachEffect(rows, rs[..i], f);
    assert rs[..i + 1][..i] == rs[..i];
  }

  /** When the list holds every row satisfying `p` and `f` never leaves a row
      satisfying `p`, no stored row satisfies `p` once the list is done. */
  lemma {:induction false} ApplyEachClears(rows: map<int, Reservation>, rs: seq<Reservation>, f: Reservation -> Reservation,
                                           p: Reservation -> bool)
    requires forall id :: id in rows ==> rows[id].id == id
    requires forall x :: f(f(x)) == f(x)
    requires forall x :: !p(f(x))
    requires forall id :: id in rows && p(rows[id]) ==> rows[id] in rs
    ensures forall id :: id in ApplyEach(rows, rs, f) ==> !p(ApplyEach(rows, rs, f)[id])
  {
    ApplyEachEffect(rows, rs, f);
  }

  /** The tables after the table of each listed reservation, in list order,
      is put in `status` and unbound. */
  function ReleaseAll(tables: map<int, Table>, rs: seq<Reservation>, status: TableStatus): (r: map<int, Table>)
    ensures r.Keys == tables.Keys
    ensures forall tid :: tid in tables && tid !in TableIdsOf(rs) ==> r[tid] == tables[tid]
    decreases |rs|
  {
    if rs == [] then tables
    else ReleaseTable(ReleaseAll(tables, rs[..|rs| - 1], status), rs[|rs| - 1].tableId, status)
  }

  /** The table ids of a list of reservations. */
  function TableIdsOf(rs: seq<Reservation>): set<int> {
    set k | 0 <= k < |rs| && rs[k].tableId.Some? :: rs[k].tableId.value
  }

  /** Every existing table of a listed reservation ends in `status` and bound
      to nothing; every other table is left alone. */
  lemma {:induction false} ReleaseAllEffect(tables: map<int, Table>, rs: seq<Reservation>, status: TableStatus)
    ensures ReleaseAll(tables, rs, status).Keys == tables.Keys
    ensures forall tid :: tid in tables ==>
              ReleaseAll(tables, rs, status)[tid]
                == if tid in TableIdsOf(rs) then tables[tid].(status := status, currentReservationId := None)
                   else tables[tid]
    decreases |rs|
  {
    if rs != [] {
      var init := rs[..|rs| - 1];
      var last := rs[|rs| - 1];
      ReleaseAllEffect(tables, init, status);
      assert TableIdsOf(rs) == TableIdsOf(init) + (if last.tableId.Some? then {last.tableId.value} else {}) by {
        forall tid | tid in TableIdsOf(rs)
          ensures tid in TableIdsOf(init) + (if last.tableId.Some? then {last.tableId.value} else {})
        {
          var k :| 0 <= k < |rs| && rs[k].tableId.Some? && rs[k].tableId.value == tid;
          if k < |rs| - 1 { assert init[k] == rs[k]; }
        }
        forall tid | tid in TableIdsOf(init) ensures tid in TableIdsOf(rs) {
          var k :| 0 <= k < |init| && init[k].tableId.Some? && init[k].tableId.value == tid;
          assert rs[k] == init[k];
        }
      }
    }
  }

  /** A reservation after the timeout job has warned it. */
  function Warned(x: Reservation): (y: Reservation)
    ensures y.status == TimeoutWarning && y.id == x.id && y.tableId == x.tableId
  {
    x.(status := TimeoutWarning)
  }

  lemma {:induction false} MarkedNoShowIdempotent()
    ensures forall x :: MarkedNoShow(MarkedNoShow(x)) == MarkedNoShow(x)
  {
  }

  const NoShowGraceSeconds: int := 15 * 60
  const TimeoutSeconds: int := 120 * 60

  class ScheduledTaskService {
    const resService: ResService

    ghost predicate Valid()
      reads this, resService, resService.reservations, resService.tables
    {
      resService.Valid()
    }

    constructor(resService: ResService)
      requires resService.Valid()
      ensures this.resService == resService && Valid()
    {
      this.resService := resService;
    }

    /** The loop of `checkNoShows`: each listed reservation in turn is marked
        as a no-show and its table freed. */
    method MarkEachAsNoShow(due: seq<Reservation>)
      requires Valid()
      requires forall k :: 0 <= k < |due| ==> due[k] in resService.reservations.rows.Values
      modifies resService.reservations, resService.tables
      ensures Valid()
      ensures resService.reservations.rows == ApplyEach(old(resService.reservations.rows), due, MarkedNoShow)
      ensures resService.tables.rows == ReleaseAll(old(resService.tables.rows), due, Available)
      ensures resService.reservations.nextId == old(resService.reservations.nextId)
      ensures resService.tables.nextId == old(resService.tables.nextId)
    {
      var reservations := resService.reservations;
      var tables := resService.tables;
      ghost var rows0 := reservations.rows;
      ghost var tables0 := tables.rows;
      MarkedNoShowIdempotent();
      var i := 0;
      while i < |due|
        invariant 0 <= i <= |due|
        invariant Valid()
        invariant reservations.nextId == old(reservations.nextId) && tables.nextId == old(tables.nextId)
        invariant reservations.rows == ApplyEach(rows0, due[..i], MarkedNoShow)
        invariant tables.rows == ReleaseAll(tables0, due[..i], Available)
      {
        var reservation := due[i];
        ListedRowStored(rows0, due, i, MarkedNoShow);
        assert due[..i + 1][..i] == due[..i];
        ghost var before := reservations.rows;
        ghost var tablesBefore := tables.rows;
        // A failure is reported and the loop goes on; a failed update changes nothing.
        var _ := resService.MarkAsNoShow(reservation.id);
        assert reservations.rows == before[reservation.id := MarkedNoShow(before[reservation.id])];
        assert tables.rows == ReleaseTable(tablesBefore, reservation.tableId, Available);
        i := i + 1;
      }
      assert due[..i] == due;
    }

    /** Marks every reservation that was a potential no-show at the start of
        the run as NO_SHOW and frees its table. Afterwards no potential
        no-show is left, and nothing else has changed. */
    method CheckNoShows(now: int)
      requires Valid()
      modifies resService.reservations, resService.tables
      ensures Valid()
      ensures var due := old(resService.FindPotentialNoShowsAt(now));
              resService.reservations.rows == ApplyEach(old(resService.reservations.rows), due, MarkedNoShow)
              && resService.tables.rows == ReleaseAll(old(resService.tables.rows), due, Available)
      ensures resService.reservations.nextId == old(resService.reservations.nextId)
      ensures resService.tables.nextId == old(resService.tables.nextId)
      ensures resService.reservations.rows.Keys == old(resService.reservations.rows).Keys
      ensures forall id :: id in resService.reservations.rows ==>
                !IsPotentialNoShow(resService.reservations.rows[id], now - NoShowGraceSeconds)
    {
      ghost var rows0 := resService.reservations.rows;
      var potentialNoShows := resService.FindPotentialNoShowsAt(now);
      MarkEachAsNoShow(potentialNoShows);
      MarkedNoShowIdempotent();
      ApplyEachEffect(rows0, potentialNoShows, MarkedNoShow);
      ApplyEachClears(rows0, potentialNoShows, MarkedNoShow, x => IsPotentialNoShow(x, now - NoShowGraceSeconds));
    }

    /** The loop of `checkTimeouts`: each listed reservation that is
        CHECKED_IN in the list (all of them, as the query selected them for
        that status) is warned in turn. */
    method WarnEach(due: seq<Reservation>)
      requires Valid()
      requires forall k :: 0 <= k < |due| ==> due[k] in resService.reservations.rows.Values && due[k].status == CheckedIn
      modifies resService.reservations
      ensures Valid()
      ensures resService.reservations.rows == ApplyEach(old(resService.reservations.rows), due, Warned)
      ensures resService.reservations.nextId == old(resService.reservations.nextId)
    {
      var reservations := resService.reservations;
      ghost var rows0 := reservations.rows;
      var i := 0;
      while i < |due|
        invariant 0 <= i <= |due|
        invariant Valid()
        invariant reservations.nextId == old(reservations.nextId)
        invariant reservations.rows == ApplyEach(rows0, due[..i], Warned)
      {
        var reservation := due[i];
        ListedRowStored(rows0, due, i, Warned);
        ghost var before := reservations.rows;
        // Only a reservation that is not warned yet
        if ReservationStatusName(reservation.status) == "CHECKED_IN" {
          var _ := resService.MarkTimeoutWarning(reservation.id);
        }
        assert reservations.rows == before[reservation.id := Warned(before[reservation.id])];
        i := i + 1;
      }
      assert due[..i] == due;
    }

    /** Warns every reservation that was a timeout candidate at the start of
        the run. Afterwards no timeout candidate is left; tables are not
        touched. */
    method CheckTimeouts(now: int)
      requires Valid()
      modifies resService.reservations
      ensures Valid()
      ensures var due := old(resService.FindTimeoutCandidatesAt(now));
              resService.reservations.rows == ApplyEach(old(resService.reservations.rows), due, Warned)
      ensures resService.reservations.nextId == old(resService.reservations.nextId)
      ensures resService.reservations.rows.Keys == old(resService.reservations.rows).Keys
      ensures forall id :: id in resService.reservations.rows ==>
                !IsTimeoutCandidate(resService.reservations.rows[id], now - TimeoutSeconds)
    {
      ghost var rows0 := resService.reservations.rows;
      var timeoutCandidates := resService.FindTimeoutCandidatesAt(now);
      WarnEach(timeoutCandidates);
      ApplyEachEffect(rows0, timeoutCandidates, Warned);
      ApplyEachClears(rows0, timeoutCandidates, Warned, x => IsTimeoutCandidate(x, now - TimeoutSeconds));
    }
  }
}
