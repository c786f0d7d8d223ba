/** The Owner service's stored rows: one repository object per entity, holding
    its rows by primary key and the next identity value the database hands
    out. */
module Stores {
  import opened Common
  import opened Domain

  class TableRepository {
    var rows: map<int, Table>
    var nextId: int

    /** Every row is stored under its own id, and ids still to be handed out
        are fresh. */
    ghost predicate Valid()
      reads this
    {
      forall id :: id in rows ==> rows[id].id == id && id < nextId
    }

    constructor()
      ensures Valid() && rows == map[] && nextId == 1
    {
      rows := map[];
      nextId := 1;
    }

    /** Writes a table back under its own, already stored, id. */
    method Update(t: Table)
      requires Valid() && t.id in rows
      modifies this
      ensures Valid() && rows == old(rows)[t.id := t] && nextId == old(nextId)
    {
      rows := rows[t.id := t];
    }

    /** `save` of a table posted with `id`: a stored id is merged into its
        row; a table without id, or with an id that is not stored, is
        inserted under the next identity value, which is fresh. */
    method Save(id: Option<int>, t: Table) returns (saved: Table)
      requires Valid()
      modifies this
      ensures Valid()
      ensures id.Some? && id.value in old(rows) ==>
                saved == t.(id := id.value) && rows == old(rows)[id.value := saved] && nextId == old(nextId)
      ensures !(id.Some? && id.value in old(rows)) ==>
                saved == t.(id := old(nextId)) && old(nextId) !in old(rows)
                && rows == old(rows)[saved.id := saved] && nextId == old(nextId) + 1
    {
      if id.Some? && id.value in rows {
        saved := t.(id := id.value);
        Update(saved);
      } else {
        saved := t.(id := nextId);
        rows := rows[saved.id := saved];
        nextId := nextId + 1;
      }
    }
  }

  class ReservationRepository {
    var rows: map<int, Reservation>
    var nextId: int

    ghost predicate Valid()
      reads this
    {
      forall id :: id in rows ==> rows[id].id == id && id < nextId
    }

    constructor()
      ensures Valid() && rows == map[] && nextId == 1
    {
      rows := map[];
      nextId := 1;
    }
  }

  class PaymentRepository {
    var rows: map<int, Payment>
    var nextId: int

    ghost predicate Valid()
      reads this
    {
      forall id :: id in rows ==> rows[id].id == id && id < nextId
    }

    constructor()
      ensures Valid() && rows == map[] && nextId == 1
    {
      rows := map[];
      nextId := 1;
    }
  }
}
