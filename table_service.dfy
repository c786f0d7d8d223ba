/** The Owner service's table registry: loads a table, changes its status and
    reservation binding, and saves it back. */
module Tables {
  import opened Common
  import opened Domain
  import opened Stores

  /** Whether `assignReservation` refuses: the table is held, RESERVED or
      OCCUPIED, by a different reservation. */
  predicate AssignConflict(t: Table, reservationId: int) {
    t.currentReservationId.Some? && t.currentReservationId.value != reservationId
    && (t.status == Reserved || t.status == Occupied)
  }

  /** The table after a successful `assignReservation`. */
  function Assigned(t: Table, reservationId: int): (a: Table)
    ensures a.status == Reserved && a.currentReservationId == Some(reservationId)
    ensures a.id == t.id && a.restaurantId == t.restaurantId && a.tableNumber == t.tableNumber && a.capacity == t.capacity
  {
    t.(status := Reserved, currentReservationId := Some(reservationId))
  }

  /** Assigning a reservation again to the table it already holds is accepted
      and changes nothing more. */
  lemma {:induction false} AssignIdempotent(t: Table, reservationId: int)
    requires !AssignConflict(t, reservationId)
    ensures !AssignConflict(Assigned(t, reservationId), reservationId)
    ensures Assigned(Assigned(t, reservationId), reservationId) == Assigned(t, reservationId)
  {
  }

  /** A table bound to nobody, or not held, can always be assigned. */
  lemma {:induction false} FreeTableAssignable(t: Table, reservationId: int)
    requires t.currentReservationId == None || t.status == Available || t.status == Cleaning
    ensures !AssignConflict(t, reservationId)
  {
  }

  class TableService {
    const tables: TableRepository

    ghost predicate Valid()
      reads this, tables
    {
      tables.Valid()
    }

    constructor(tables: TableRepository)
      requires tables.Valid()
      ensures this.tables == tables && Valid()
    {
      this.tables := tables;
    }

    /** Every stored table, each once. */
    function GetAllTables(): (r: seq<Table>)
      reads this, tables
      ensures forall t :: t in r <==> t in tables.rows.Values
      ensures |r| == |tables.rows.Keys|
    {
      FindAll(tables.rows)
    }

    /** Fails for an unknown id. */
    method GetTableById(id: int) returns (r: Result<Table>)
      ensures r.Ok? <==> id in tables.rows
      ensures r.Ok? ==> r.value == tables.rows[id]
      ensures r.Err? ==> r.error == TableNotFound(id)
    {
      if id in tables.rows {
        r := Ok(tables.rows[id]);
      } else {
        r := Err(TableNotFound(id));
      }
    }

    /** Sets the status only; the binding is kept. */
    method UpdateTableStatus(id: int, status: TableStatus) returns (r: Result<Table>)
      requires Valid()
      modifies tables
      ensures Valid() && tables.nextId == old(tables.nextId)
      ensures r.Err? ==> r.error == TableNotFound(id) && id !in old(tables.rows) && tables.rows == old(tables.rows)
      ensures r.Ok? ==> id in old(tables.rows) && r.value == old(tables.rows[id]).(status := status)
                        && tables.rows == old(tables.rows)[id := r.value]
    {
      var found := GetTableById(id);
      if found.Err? {
        return Err(found.error);
      }
      var t := found.value.(status := status);
      tables.rows := tables.rows[id := t];
      r := Ok(t);
    }

    /** `createTable` is `save`: a table posted with a stored id updates that
        row; otherwise it is stored under a fresh id. */
    method CreateTable(id: Option<int>, table: Table) returns (saved: Table)
      requires Valid()
      modifies tables
      ensures Valid()
      ensures id.Some? && id.value in old(tables.rows) ==>
                saved == table.(id := id.value) && tables.rows == old(tables.rows)[id.value := saved]
                && tables.nextId == old(tables.nextId)
      ensures !(id.Some? && id.value in old(tables.rows)) ==>
                saved == table.(id := old(tables.nextId)) && old(tables.nextId) !in old(tables.rows)
                && tables.rows == old(tables.rows)[saved.id := saved] && tables.nextId == old(tables.nextId) + 1
    {
      saved := tables.Save(id, table);
    }

    /** Refuses a table without id; otherwise `save`: a stored id has its row
        replaced, and an id that is not stored is inserted under a fresh
        id. */
    method UpdateTable(id: Option<int>, table: Table) returns (r: Result<Table>)
      requires Valid()
      modifies tables
      ensures Valid()
      ensures id == None ==> r == Err(TableIdRequired) && tables.rows == old(tables.rows) && tables.nextId == old(tables.nextId)
      ensures id.Some? && id.value in old(tables.rows) ==>
                r == Ok(table.(id := id.value)) && tables.rows == old(tables.rows)[id.value := r.value]
                && tables.nextId == old(tables.nextId)
      ensures id.Some? && id.value !in old(tables.rows) ==>
                r == Ok(table.(id := old(tables.nextId))) && old(tables.nextId) !in old(tables.rows)
                && tables.rows == old(tables.rows)[r.value.id := r.value] && tables.nextId == old(tables.nextId) + 1
    {
      if id == None {
        return Err(TableIdRequired);
      }
      var saved := tables.Save(id, table);
      r := Ok(saved);
    }

    /** True exactly when the table existed; it is then removed. */
    method DeleteTable(id: int) returns (deleted: bool)
      requires Valid()
      modifies tables
      ensures Valid() && tables.nextId == old(tables.nextId)
      ensures deleted <==> id in old(tables.rows)
      ensures tables.rows == old(tables.rows) - {id}
    {
      deleted := id in tables.rows;
      if deleted {
        tables.rows := tables.rows - {id};
      }
    }

    /** CLEANING, keeping whatever reservation the table is bound to. */
    method MarkForCleaning(id: int) returns (r: Result<Table>)
      requires Valid()
      modifies tables
      ensures Valid() && tables.nextId == old(tables.nextId)
      ensures r.Err? ==> r.error == TableNotFound(id) && id !in old(tables.rows) && tables.rows == old(tables.rows)
      ensures r.Ok? ==> id in old(tables.rows) && r.value == old(tables.rows[id]).(status := Cleaning)
                        && r.value.currentReservationId == old(tables.rows[id]).currentReservationId
                        && tables.rows == old(tables.rows)[id := r.value]
    {
      r := UpdateTableStatus(id, Cleaning);
    }

    /** AVAILABLE and bound to no reservation. */
    method MarkAsAvailable(id: int) returns (r: Result<Table>)
      requires Valid()
      modifies tables
      ensures Valid() && tables.nextId == old(tables.nextId)
      ensures r.Err? ==> r.error == TableNotFound(id) && id !in old(tables.rows) && tables.rows == old(tables.rows)
      ensures r.Ok? ==> id in old(tables.rows)
                        && r.value == old(tables.rows[id]).(status := Available, currentReservationId := None)
                        && tables.rows == old(tables.rows)[id := r.value]
    {
      var found := GetTableById(id);
      if found.Err? {
        return Err(found.error);
      }
      var t := found.value.(status := Available, currentReservationId := None);
      tables.rows := tables.rows[id := t];
      r := Ok(t);
    }

    /** Binds the table to the reservation and marks it RESERVED, unless it is
        held by a different reservation; a refused assignment changes nothing. */
    method AssignReservation(tableId: int, reservationId: int) returns (r: Result<Table>)
      requires Valid()
      modifies tables
      ensures Valid() && tables.nextId == old(tables.nextId)
      ensures tableId !in old(tables.rows) ==> r == Err(TableNotFound(tableId)) && tables.rows == old(tables.rows)
      ensures tableId in old(tables.rows) && AssignConflict(old(tables.rows[tableId]), reservationId) ==>
                r == Err(TableAlreadyAssigned(old(tables.rows[tableId]).tableNumber,
                                              old(tables.rows[tableId]).currentReservationId.value))
                && tables.rows == old(tables.rows)
      ensures tableId in old(tables.rows) && !AssignConflict(old(tables.rows[tableId]), reservationId) ==>
                r == Ok(Assigned(old(tables.rows[tableId]), reservationId))
                && tables.rows == old(tables.rows)[tableId := r.value]
    {
      var found := GetTableById(tableId);
      if found.Err? {
        return Err(found.error);
      }
      var t := found.value;
      if t.currentReservationId.Some? && t.currentReservationId.value != reservationId {
        if t.status == Reserved || t.status == Occupied {
          return Err(TableAlreadyAssigned(t.tableNumber, t.currentReservationId.value));
        }
      }
      var a := t.(status := Reserved, currentReservationId := Some(reservationId));
      tables.rows := tables.rows[tableId := a];
      r := Ok(a);
    }
  }
}
