/** The Owner service's table queries over the stored tables (a map from id to
    row). */
module TableQueries {
  import opened Common
  import opened Domain

  /** All tables of a restaurant, each once. */
  function FindByRestaurantId(tables: map<int, Table>, restaurantId: int): (r: seq<Table>)
    ensures forall t :: t in r ==> t in tables.Values && t.restaurantId == restaurantId
    ensures forall id :: id in tables && tables[id].restaurantId == restaurantId ==> tables[id] in r
    ensures |r| == |set id | id in tables && tables[id].restaurantId == restaurantId|
  {
    var keep, key := (t: Table) => t.restaurantId == restaurantId, (t: Table) => 0;
    SelectCount(tables, keep, key, set id | id in tables && tables[id].restaurantId == restaurantId);
    Select(tables, keep, key)
  }

  /** Exactly the tables of the restaurant that are in `status`. */
  function FindByRestaurantIdAndStatus(tables: map<int, Table>, restaurantId: int, status: TableStatus): (r: seq<Table>)
    ensures forall t :: t in r ==> t in tables.Values && t.restaurantId == restaurantId && t.status == status
    ensures forall id :: id in tables ==>
              (tables[id].restaurantId == restaurantId && tables[id].status == status ==> tables[id] in r)
    ensures |r| == |set id | id in tables && tables[id].restaurantId == restaurantId && tables[id].status == status|
  {
    var keep, key := (t: Table) => t.restaurantId == restaurantId && t.status == status, (t: Table) => 0;
    SelectCount(tables, keep, key, set id | id in tables && tables[id].restaurantId == restaurantId && tables[id].status == status);
    Select(tables, keep, key)
  }

  predicate Qualifies(t: Table, restaurantId: int, minCapacity: int) {
    t.restaurantId == restaurantId && t.status == Available && t.capacity >= minCapacity
  }

  /** The restaurant's AVAILABLE tables seating at least `minCapacity`,
      smallest capacity first. */
  function FindAvailableTablesWithCapacity(tables: map<int, Table>, restaurantId: int, minCapacity: int): (r: seq<Table>)
    ensures forall t :: t in r ==> t in tables.Values && Qualifies(t, restaurantId, minCapacity)
    ensures forall id :: id in tables && Qualifies(tables[id], restaurantId, minCapacity) ==> tables[id] in r
    ensures forall i, j :: 0 <= i < j < |r| ==> r[i].capacity <= r[j].capacity
    ensures |r| == |set id | id in tables && Qualifies(tables[id], restaurantId, minCapacity)|
  {
    var keep, key := (t: Table) => Qualifies(t, restaurantId, minCapacity), (t: Table) => t.capacity;
    SelectCount(tables, keep, key, set id | id in tables && Qualifies(tables[id], restaurantId, minCapacity));
    Select(tables, keep, key)
  }

  /** The first table of the query result is a best fit: no qualifying table
      is smaller. */
  lemma {:induction false} FirstAvailableIsSmallest(tables: map<int, Table>, restaurantId: int, minCapacity: int, id: int)
    requires |FindAvailableTablesWithCapacity(tables, restaurantId, minCapacity)| > 0
    requires id in tables && Qualifies(tables[id], restaurantId, minCapacity)
    ensures FindAvailableTablesWithCapacity(tables, restaurantId, minCapacity)[0].capacity <= tables[id].capacity
  {
    var r := FindAvailableTablesWithCapacity(tables, restaurantId, minCapacity);
    assert tables[id] in r;
    var k :| 0 <= k < |r| && r[k] == tables[id];
    if k > 0 {
      assert r[0].capacity <= r[k].capacity;
    }
  }

  /** The query is empty exactly when no table of the restaurant qualifies. */
  lemma {:induction false} NoAvailableTable(tables: map<int, Table>, restaurantId: int, minCapacity: int)
    ensures |FindAvailableTablesWithCapacity(tables, restaurantId, minCapacity)| == 0
      <==> forall id :: id in tables ==> !Qualifies(tables[id], restaurantId, minCapacity)
  {
    var r := FindAvailableTablesWithCapacity(tables, restaurantId, minCapacity);
    if |r| > 0 {
      assert r[0] in r;
      assert r[0] in tables.Values;
      var id :| id in tables && tables[id] == r[0];
      assert Qualifies(tables[id], restaurantId, minCapacity);
    }
  }
}
