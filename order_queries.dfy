/** The Cook service's orders and the repository queries over them (a map
    from id to row). An order's status is free text, normally one of
    PENDING, IN_KITCHEN, READY, SERVED and CANCELLED, and may be missing.
    Each query lists every matching row once; only an ORDER BY fixes the
    order the contract states. */
module OrderQueries {
  import opened Common

  datatype OrderItem = OrderItem(
    menuItemId: Option<int>,
    name: string,
    quantity: int,
    unitPrice: Option<int>,          // cents
    specialInstructions: Option<string>)

  datatype Order = Order(
    id: int,
    reservationId: Option<int>,
    tableNumber: Option<string>,
    isPreorder: bool,
    status: Option<string>,
    specialRequests: Option<string>,
    orderDateTime: int,
    deliveryTime: Option<int>,
    totalPrice: int,                 // cents
    items: seq<OrderItem>)

  function FindByStatus(rows: map<int, Order>, status: string): (r: seq<Order>)
    ensures forall o :: o in r ==> o in rows.Values && o.status == Some(status)
    ensures forall id :: id in rows && rows[id].status == Some(status) ==> rows[id] in r
    ensures |r| == |set id | id in rows && rows[id].status == Some(status)|
  {
    var keep, key := (o: Order) => o.status == Some(status), (o: Order) => 0;
    SelectCount(rows, keep, key, set id | id in rows && rows[id].status == Some(status));
    Select(rows, keep, key)
  }

  function FindByReservationId(rows: map<int, Order>, reservationId: int): (r: seq<Order>)
    ensures forall o :: o in r ==> o in rows.Values && o.reservationId == Some(reservationId)
    ensures forall id :: id in rows && rows[id].reservationId == Some(reservationId) ==> rows[id] in r
    ensures |r| == |set id | id in rows && rows[id].reservationId == Some(reservationId)|
  {
    var keep, key := (o: Order) => o.reservationId == Some(reservationId), (o: Order) => 0;
    SelectCount(rows, keep, key, set id | id in rows && rows[id].reservationId == Some(reservationId));
    Select(rows, keep, key)
  }

  function FindByTableNumber(rows: map<int, Order>, tableNumber: string): (r: seq<Order>)
    ensures forall o :: o in r ==> o in rows.Values && o.tableNumber == Some(tableNumber)
    ensures forall id :: id in rows && rows[id].tableNumber == Some(tableNumber) ==> rows[id] in r
    ensures |r| == |set id | id in rows && rows[id].tableNumber == Some(tableNumber)|
  {
    var keep, key := (o: Order) => o.tableNumber == Some(tableNumber), (o: Order) => 0;
    SelectCount(rows, keep, key, set id | id in rows && rows[id].tableNumber == Some(tableNumber));
    Select(rows, keep, key)
  }

  function FindByIsPreorder(rows: map<int, Order>, isPreorder: bool): (r: seq<Order>)
    ensures forall o :: o in r ==> o in rows.Values && o.isPreorder == isPreorder
    ensures forall id :: id in rows && rows[id].isPreorder == isPreorder ==> rows[id] in r
    ensures |r| == |set id | id in rows && rows[id].isPreorder == isPreorder|
  {
    var keep, key := (o: Order) => o.isPreorder == isPreorder, (o: Order) => 0;
    SelectCount(rows, keep, key, set id | id in rows && rows[id].isPreorder == isPreorder);
    Select(rows, keep, key)
  }

  /** What the cook still has to prepare. */
  predicate IsActive(o: Order) {
    o.status == Some("PENDING") || o.status == Some("IN_KITCHEN")
  }

  /** What the waiter sees: every order except the cancelled ones. An order
      without status is not shown either, as `NOT IN` is not true for SQL
      NULL. */
  predicate IsWaiterVisible(o: Order) {
    o.status.Some? && o.status.value != "CANCELLED"
  }

  /** PENDING and IN_KITCHEN orders, oldest first. */
  function FindActiveOrders(rows: map<int, Order>): (r: seq<Order>)
    ensures forall o :: o in r ==> o in rows.Values && IsActive(o)
    ensures forall id :: id in rows && IsActive(rows[id]) ==> rows[id] in r
    ensures forall i, j :: 0 <= i < j < |r| ==> r[i].orderDateTime <= r[j].orderDateTime
    ensures |r| == |set id | id in rows && IsActive(rows[id])|
  {
    var keep, key := IsActive, (o: Order) => o.orderDateTime;
    SelectCount(rows, keep, key, set id | id in rows && IsActive(rows[id]));
    Select(rows, keep, key)
  }

  /** Every order with a status other than CANCELLED, oldest first. */
  function FindWaiterOrders(rows: map<int, Order>): (r: seq<Order>)
    ensures forall o :: o in r ==> o in rows.Values && IsWaiterVisible(o)
    ensures forall id :: id in rows && IsWaiterVisible(rows[id]) ==> rows[id] in r
    ensures forall i, j :: 0 <= i < j < |r| ==> r[i].orderDateTime <= r[j].orderDateTime
    ensures |r| == |set id | id in rows && IsWaiterVisible(rows[id])|
  {
    var keep, key := IsWaiterVisible, (o: Order) => o.orderDateTime;
    SelectCount(rows, keep, key, set id | id in rows && IsWaiterVisible(rows[id]));
    Select(rows, keep, key)
  }

  function FindByStatusOrderByOrderDateTimeAsc(rows: map<int, Order>, status: string): (r: seq<Order>)
    ensures forall o :: o in r ==> o in rows.Values && o.status == Some(status)
    ensures forall id :: id in rows && rows[id].status == Some(status) ==> rows[id] in r
    ensures forall i, j :: 0 <= i < j < |r| ==> r[i].orderDateTime <= r[j].orderDateTime
    ensures |r| == |set id | id in rows && rows[id].status == Some(status)|
  {
    var keep, key := (o: Order) => o.status == Some(status), (o: Order) => o.orderDateTime;
    SelectCount(rows, keep, key, set id | id in rows && rows[id].status == Some(status));
    Select(rows, keep, key)
  }

  /** The cook's active orders are among the waiter's, and SERVED orders are
      shown to the waiter but not to the cook. */
  lemma {:induction false} ActiveOrdersAreWaiterOrders(rows: map<int, Order>)
    ensures forall o :: o in FindActiveOrders(rows) ==> o in FindWaiterOrders(rows)
    ensures forall id :: id in rows && rows[id].status == Some("SERVED") ==>
              rows[id] in FindWaiterOrders(rows) && rows[id] !in FindActiveOrders(rows)
  {
    forall o | o in FindActiveOrders(rows)
      ensures o in FindWaiterOrders(rows)
    {
      if forall id :: id in rows ==> rows[id] != o {
        assert false;
      }
      var id :| id in rows && rows[id] == o;
    }
  }
}
