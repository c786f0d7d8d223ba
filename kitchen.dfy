/** The Cook service's order lifecycle: orders arrive (directly or as a
    customer's preorder), the cook marks them IN_KITCHEN and READY, the
    waiter marks them SERVED, and any of them can be CANCELLED. The status
    setters do not look at the current status. Prices are in cents; the
    clock is the `now` parameter. */
module Kitchen {
  import opened Common
  import opened Domain
  import opened OrderQueries

  class OrderRepository {
    var rows: map<int, Order>
    var nextId: int

    /** Every row is stored under its own id, and ids still to be handed out
        are fresh. */
    ghost predicate Valid()
      reads this
    {
      forall id :: id in rows ==> rows[id].id == id && id < nextId
    }

    constructor()
      ensures Valid() && rows == map[] && nextId == 1
    {
      rows := map[];
      nextId := 1;
    }
  }

  // ---------------------------------------------------------------------------
  // Preorders
  // ---------------------------------------------------------------------------

  /** One line of a customer's preorder. */
  datatype PreorderItem = PreorderItem(
    menuItemId: Option<int>,
    name: string,
    quantity: int,
    unitPrice: Option<int>,
    specialInstructions: Option<string>)

  /** A preorder as the customer client sends it; `items` may be missing. */
  datatype PreorderRequest = PreorderRequest(
    reservationId: Option<int>,
    restaurantId: Option<int>,
    tableNumber: Option<string>,
    items: Option<seq<PreorderItem>>,
    specialRequests: Option<string>,
    deliveryTime: Option<int>)

  /** The order line a preorder line becomes: every field copied over. */
  function ToOrderItem(dto: PreorderItem): (item: OrderItem)
    ensures item.menuItemId == dto.menuItemId && item.name == dto.name && item.quantity == dto.quantity
    ensures item.unitPrice == dto.unitPrice && item.specialInstructions == dto.specialInstructions
    ensures LineTotal(item) == if dto.unitPrice.Some? then dto.unitPrice.value * dto.quantity else 0
  {
    OrderItem(dto.menuItemId, dto.name, dto.quantity, dto.unitPrice, dto.specialInstructions)
  }

  /** The order lines of a preorder, in the customer's order. */
  function PreorderItems(dtos: seq<PreorderItem>): (r: seq<OrderItem>)
    ensures |r| == |dtos|
  {
    seq(|dtos|, k requires 0 <= k < |dtos| => ToOrderItem(dtos[k]))
  }

  /** A line's price: unit price times quantity, or nothing when the line
      has no price. */
  function LineTotal(item: OrderItem): int {
    if item.unitPrice.Some? then item.unitPrice.value * item.quantity else 0
  }

  /** The sum of the line prices. */
  function ItemsTotal(items: seq<OrderItem>): (total: int)
    ensures (forall i :: 0 <= i < |items| ==> NonNegativeLine(items[i])) ==> total >= 0
  {
    if items == [] then 0 else ItemsTotal(items[..|items| - 1]) + LineTotal(items[|items| - 1])
  }

  /** Totals add up over concatenation. */
  lemma {:induction false} ItemsTotalAppend(a: seq<OrderItem>, b: seq<OrderItem>)
    ensures ItemsTotal(a + b) == ItemsTotal(a) + ItemsTotal(b)
    decreases |b|
  {
    if b != [] {
      var b' := b[..|b| - 1];
      assert (a + b)[..|a + b| - 1] == a + b';
      ItemsTotalAppend(a, b');
    } else {
      assert a + b == a;
    }
  }

  predicate NonNegativeLine(item: OrderItem) {
    item.quantity >= 0 && (item.unitPrice.Some? ==> item.unitPrice.value >= 0)
  }

  /** The total is zero when no line carries a price. */
  lemma {:induction false} ItemsTotalWithoutPrices(items: seq<OrderItem>)
    ensures (forall i :: 0 <= i < |items| ==> items[i].unitPrice.None?) ==> ItemsTotal(items) == 0
    decreases |items|
  {
    if items != [] {
      var init := items[..|items| - 1];
      ItemsTotalWithoutPrices(init);
      assert forall i :: 0 <= i < |init| ==> init[i] == items[i];
    }
  }

  /** A finished preorder: the request's fields, the defaults for a missing
      table number, and the lines with their total. */
  function PreorderOrder(request: PreorderRequest, id: int, now: int): (o: Order)
    ensures o.id == id && o.reservationId == request.reservationId && o.isPreorder && o.status == Some("PENDING")
    ensures request.tableNumber.None? ==> o.tableNumber == Some("TBD")
    ensures |o.items| == (if request.items.Some? then |request.items.value| else 0)
    ensures o.totalPrice == ItemsTotal(o.items)
  {
    var dtos := if request.items.Some? then request.items.value else [];
    var items := PreorderItems(dtos);
    Order(id, request.reservationId,
          Some(if request.tableNumber.Some? then request.tableNumber.value else "TBD"),
          true, Some("PENDING"), request.specialRequests, now, request.deliveryTime,
          ItemsTotal(items), items)
  }

  // ---------------------------------------------------------------------------
  // Status changes
  // ---------------------------------------------------------------------------

  /** The order with the given status and everything else kept. */
  function WithStatus(o: Order, status: string): (r: Order)
    ensures r.status == Some(status)
    ensures r.(status := o.status) == o
  {
    o.(status := Some(status))
  }

  /** The order marked READY, delivered at `now`. */
  function MarkedReady(o: Order, now: int): (r: Order)
    ensures r.status == Some("READY") && r.deliveryTime == Some(now)
    ensures r.(status := o.status, deliveryTime := o.deliveryTime) == o
  {
    o.(status := Some("READY"), deliveryTime := Some(now))
  }

  /** Where each status puts an order: IN_KITCHEN keeps it on the cook's
      list, READY and SERVED move it to the waiter's only, CANCELLED takes
      it off both. */
  lemma {:induction false} LifecycleVisibility(o: Order, now: int)
    ensures IsActive(WithStatus(o, "PENDING")) && IsWaiterVisible(WithStatus(o, "PENDING"))
    ensures IsActive(WithStatus(o, "IN_KITCHEN")) && IsWaiterVisible(WithStatus(o, "IN_KITCHEN"))
    ensures !IsActive(MarkedReady(o, now)) && IsWaiterVisible(MarkedReady(o, now))
    ensures !IsActive(WithStatus(o, "SERVED")) && IsWaiterVisible(WithStatus(o, "SERVED"))
    ensures !IsActive(WithStatus(o, "CANCELLED")) && !IsWaiterVisible(WithStatus(o, "CANCELLED"))
  {
  }

  /** Rewriting one stored order decides its place in the cook's and the
      waiter's lists by its new status alone, and leaves every other order
      where it was. */
  lemma {:induction false} UpdateVisibility(rows: map<int, Order>, id: int, o: Order)
    requires id in rows
    ensures o in FindActiveOrders(rows[id := o]) <==> IsActive(o)
    ensures o in FindWaiterOrders(rows[id := o]) <==> IsWaiterVisible(o)
    ensures forall k :: k in rows && k != id ==>
              (rows[k] in FindActiveOrders(rows[id := o]) <== IsActive(rows[k]))
              && (rows[k] in FindWaiterOrders(rows[id := o]) <== IsWaiterVisible(rows[k]))
  {
    var rows' := rows[id := o];
    assert rows'[id] == o;
    forall k | k in rows && k != id
      ensures rows[k] in FindActiveOrders(rows') <== IsActive(rows[k])
      ensures rows[k] in FindWaiterOrders(rows') <== IsWaiterVisible(rows[k])
    {
      assert rows'[k] == rows[k];
    }
  }

  // ---------------------------------------------------------------------------
  // The service
  // ---------------------------------------------------------------------------

  class OrderService {
    const orders: OrderRepository

    ghost predicate Valid()
      reads this, orders
    {
      orders.Valid()
    }

    constructor(orders: OrderRepository)
      requires orders.Valid()
      ensures Valid() && this.orders == orders
    {
      this.orders := orders;
    }

    /** The stored order, or OrderNotFound. */
    function GetOrderById(id: int): (r: Result<Order>)
      reads this, orders
      ensures r.Ok? <==> id in orders.rows
      ensures r.Ok? ==> r.value == orders.rows[id] && r.value in orders.rows.Values
      ensures r.Err? ==> r.error == OrderNotFound(id)
    {
      if id in orders.rows then Ok(orders.rows[id]) else Err(OrderNotFound(id))
    }

    /** Stores a new order under a fresh id; an order without status starts
        PENDING. */
    method CreateOrder(order: Order) returns (saved: Order)
      requires Valid()
      modifies orders
      ensures Valid()
      ensures saved.id == old(orders.nextId) && saved.id !in old(orders.rows)
      ensures saved.status == (if order.status.None? then Some("PENDING") else order.status)
      ensures saved.(id := order.id, status := order.status) == order
      ensures orders.rows == old(orders.rows)[saved.id := saved] && orders.nextId == old(orders.nextId) + 1
    {
      var status := if order.status.None? then Some("PENDING") else order.status;
      saved := order.(id := orders.nextId, status := status);
      orders.rows := orders.rows[saved.id := saved];
      orders.nextId := orders.nextId + 1;
    }

    /** Replaces the stored order's status; OrderNotFound changes nothing. */
    method SetStatus(id: int, status: string) returns (r: Result<Order>)
      requires Valid()
      modifies orders
      ensures Valid()
      ensures r.Ok? <==> id in old(orders.rows)
      ensures r.Err? ==> r.error == OrderNotFound(id) && orders.rows == old(orders.rows)
      ensures r.Ok? ==> r.value == WithStatus(old(orders.rows)[id], status)
                        && orders.rows == old(orders.rows)[id := r.value]
      ensures orders.nextId == old(orders.nextId)
    {
      var found := GetOrderById(id);
      if found.Err? {
        return Err(found.error);
      }
      var updated := WithStatus(found.value, status);
      orders.rows := orders.rows[id := updated];
      return Ok(updated);
    }

    /** The cook starts on the order. */
    method MarkAsInKitchen(id: int) returns (r: Result<Order>)
      requires Valid()
      modifies orders
      ensures Valid()
      ensures r.Ok? <==> id in old(orders.rows)
      ensures r.Err? ==> r.error == OrderNotFound(id) && orders.rows == old(orders.rows)
      ensures r.Ok? ==> r.value == WithStatus(old(orders.rows)[id], "IN_KITCHEN")
                        && orders.rows == old(orders.rows)[id := r.value]
      ensures orders.nextId == old(orders.nextId)
    {
      r := SetStatus(id, "IN_KITCHEN");
    }

    /** The cook has finished: READY, delivered at `now`. */
    method MarkAsReady(id: int, now: int) returns (r: Result<Order>)
      requires Valid()
      modifies orders
      ensures Valid()
      ensures r.Ok? <==> id in old(orders.rows)
      ensures r.Err? ==> r.error == OrderNotFound(id) && orders.rows == old(orders.rows)
      ensures r.Ok? ==> r.value == MarkedReady(old(orders.rows)[id], now)
                        && orders.rows == old(orders.rows)[id := r.value]
      ensures orders.nextId == old(orders.nextId)
    {
      var found := GetOrderById(id);
      if found.Err? {
        return Err(found.error);
      }
      var updated := MarkedReady(found.value, now);
      orders.rows := orders.rows[id := updated];
      return Ok(updated);
    }

    /** The waiter has brought the order to the table. */
    method MarkAsServed(id: int) returns (r: Result<Order>)
      requires Valid()
      modifies orders
      ensures Valid()
      ensures r.Ok? <==> id in old(orders.rows)
      ensures r.Err? ==> r.error == OrderNotFound(id) && orders.rows == old(orders.rows)
      ensures r.Ok? ==> r.value == WithStatus(old(orders.rows)[id], "SERVED")
                        && orders.rows == old(orders.rows)[id := r.value]
      ensures orders.nextId == old(orders.nextId)
    {
      r := SetStatus(id, "SERVED");
    }

    method CancelOrder(id: int) returns (r: Result<Order>)
      requires Valid()
      modifies orders
      ensures Valid()
      ensures r.Ok? <==> id in old(orders.rows)
      ensures r.Err? ==> r.error == OrderNotFound(id) && orders.rows == old(orders.rows)
      ensures r.Ok? ==> r.value == WithStatus(old(orders.rows)[id], "CANCELLED")
                        && orders.rows == old(orders.rows)[id := r.value]
      ensures orders.nextId == old(orders.nextId)
    {
      r := SetStatus(id, "CANCELLED");
    }

    /** The older entry point: the id arrives as text; it answers false, and
        changes nothing, when the text is not a 64-bit integer or no order
        has that id, and otherwise marks the order READY. */
    method MarkAsDone(id: string, now: int) returns (done: bool)
      requires Valid()
      modifies orders
      ensures Valid()
      ensures done <==> ParseLong(id).Some? && ParseLong(id).value in old(orders.rows)
      ensures done ==> var k := ParseLong(id).value;
                       orders.rows == old(orders.rows)[k := MarkedReady(old(orders.rows)[k], now)]
      ensures !done ==> orders.rows == old(orders.rows)
      ensures orders.nextId == old(orders.nextId)
    {
      var orderId := ParseLong(id);
      if orderId.None? {
        return false;
      }
      var r := MarkAsReady(orderId.value, now);
      done := r.Ok?;
    }

    /** The lines of a preorder and their total, in one pass over the
        customer's lines. */
    method BuildItems(dtos: seq<PreorderItem>) returns (items: seq<OrderItem>, total: int)
      ensures items == PreorderItems(dtos)
      ensures total == ItemsTotal(items)
    {
      items := [];
      total := 0;
      var i := 0;
      while i < |dtos|
        invariant 0 <= i <= |dtos|
        invariant items == PreorderItems(dtos[..i])
        invariant total == ItemsTotal(items)
      {
        var item := ToOrderItem(dtos[i]);
        assert PreorderItems(dtos[..i + 1]) == items + [item];
        assert (items + [item])[..|items|] == items;
        items := items + [item];
        if dtos[i].unitPrice.Some? {
          total := total + dtos[i].unitPrice.value * dtos[i].quantity;
        }
        i := i + 1;
      }
      assert dtos[..i] == dtos;
    }

    /** Stores a customer's preorder as a PENDING preorder: the lines in the
        customer's order, the total of the priced lines, "TBD" for a missing
        table number. */
    method CreatePreorder(request: PreorderRequest, now: int) returns (saved: Order)
      requires Valid()
      modifies orders
      ensures Valid()
      ensures saved == PreorderOrder(request, old(orders.nextId), now)
      ensures saved.isPreorder && saved.status == Some("PENDING") && saved.totalPrice == ItemsTotal(saved.items)
      ensures saved.id !in old(orders.rows)
      ensures orders.rows == old(orders.rows)[saved.id := saved] && orders.nextId == old(orders.nextId) + 1
    {
      var tableNumber := if request.tableNumber.Some? then request.tableNumber.value else "TBD";
      var items: seq<OrderItem> := [];
      var total := 0;
      if request.items.Some? {
        items, total := BuildItems(request.items.value);
      }
      saved := Order(orders.nextId, request.reservationId, Some(tableNumber), true, Some("PENDING"),
                     request.specialRequests, now, request.deliveryTime, total, items);
      orders.rows := orders.rows[saved.id := saved];
      orders.nextId := orders.nextId + 1;
    }

    /** The orders the waiter is shown, oldest first; each has a status. */
    function GetWaiterOrders(): (r: seq<Order>)
      reads this, orders
      ensures forall o :: o in r <==> o in orders.rows.Values && IsWaiterVisible(o)
      ensures |r| == |set id | id in orders.rows && IsWaiterVisible(orders.rows[id])|
      ensures forall i, j :: 0 <= i < j < |r| ==> r[i].orderDateTime <= r[j].orderDateTime
      ensures forall i :: 0 <= i < |r| ==> r[i].status.Some?
    {
      var feed := FindWaiterOrders(orders.rows);
      assert forall i :: 0 <= i < |feed| ==> feed[i].status.Some? by {
        forall i | 0 <= i < |feed|
          ensures feed[i].status.Some?
        {
          assert feed[i] in feed;
        }
      }
      feed
    }

    function GetPreorders(): (r: seq<Order>)
      reads this, orders
      ensures forall o :: o in r <==> o in orders.rows.Values && o.isPreorder
      ensures |r| == |set id | id in orders.rows && orders.rows[id].isPreorder|
    {
      var listed := FindByIsPreorder(orders.rows, true);
      assert (set id | id in orders.rows && orders.rows[id].isPreorder == true)
          == (set id | id in orders.rows && orders.rows[id].isPreorder);
      listed
    }
  }

  /** A new preorder is on the cook's list and on the waiter's. */
  lemma {:induction false} NewPreorderIsActive(rows: map<int, Order>, request: PreorderRequest, id: int, now: int)
    ensures PreorderOrder(request, id, now) in FindActiveOrders(rows[id := PreorderOrder(request, id, now)])
    ensures PreorderOrder(request, id, now) in FindWaiterOrders(rows[id := PreorderOrder(request, id, now)])
  {
    var o := PreorderOrder(request, id, now);
    assert rows[id := o][id] == o;
  }
}
