/** The Waiter service: it builds the waiter's view of the floor (the Owner's
    tables with German statuses, the Cook's orders with the table each one
    is for) and drives the closing steps of a visit (finishing a table,
    taking a payment and completing the reservation) through the Owner and
    Cook services. The remote services are the models of those services;
    every remote call is taken to be delivered and answered. */
module Waiter {
  import opened Common
  import opened Domain
  import opened Stores
  import opened Reservations
  import ReservationQueries
  import opened Tables
  import opened Payments
  import opened OrderQueries
  import opened Kitchen

  // ---------------------------------------------------------------------------
  // The waiter's view
  // ---------------------------------------------------------------------------

  datatype WaiterTableStatus = Leer | Reserviert | Belegt | Abservieren

  datatype WaiterOrderStatus = Kueche | Bereit | Serviert

  datatype WaiterTable = WaiterTable(
    id: int,
    restaurantId: int,
    name: string,
    capacity: int,
    currentReservationId: Option<int>,
    status: WaiterTableStatus)

  datatype WaiterItem = WaiterItem(name: string, qty: int, unitPrice: Option<int>)

  datatype WaiterOrder = WaiterOrder(
    id: int,
    reservationId: Option<int>,
    tableId: int,
    status: WaiterOrderStatus,
    items: seq<WaiterItem>,
    totalPrice: int)

  datatype WaiterState = WaiterState(tables: seq<WaiterTable>, orders: seq<WaiterOrder>)

  /** The Owner's table status, by name, as the waiter sees it; a name the
      waiter does not know shows as LEER. */
  function WaiterTableStatusOf(name: string): (w: WaiterTableStatus)
    ensures w == Reserviert <==> name == "RESERVED"
    ensures w == Belegt <==> name == "OCCUPIED"
    ensures w == Abservieren <==> name == "CLEANING"
    ensures w == Leer <==> name != "RESERVED" && name != "OCCUPIED" && name != "CLEANING"
  {
    match name
    case "AVAILABLE" => Leer
    case "RESERVED" => Reserviert
    case "OCCUPIED" => Belegt
    case "CLEANING" => Abservieren
    case _ => Leer
  }

  /** Every Owner table status has a waiter status of its own: only an
      AVAILABLE table shows as LEER, and no two statuses look alike. */
  lemma {:induction false} TableStatusesDistinct(s: TableStatus, t: TableStatus)
    ensures WaiterTableStatusOf(TableStatusName(s)) == Leer <==> s == Available
    ensures WaiterTableStatusOf(TableStatusName(s)) == WaiterTableStatusOf(TableStatusName(t)) ==> s == t
  {
  }

  /** The Cook's order status as the waiter sees it: anything not yet READY
      or SERVED is still in the kitchen. */
  function WaiterOrderStatusOf(status: string): (w: WaiterOrderStatus)
    ensures w == Bereit <==> status == "READY"
    ensures w == Serviert <==> status == "SERVED"
    ensures w == Kueche <==> status != "READY" && status != "SERVED"
  {
    match status
    case "PENDING" => Kueche
    case "IN_KITCHEN" => Kueche
    case "READY" => Bereit
    case "SERVED" => Serviert
    case _ => Kueche
  }

  /** An order the cook still has to prepare shows as KUECHE, and one the
      cook marked READY as BEREIT. */
  lemma {:induction false} KitchenStatusAsSeenByWaiter(o: Order, now: int)
    ensures IsActive(o) ==> WaiterOrderStatusOf(o.status.value) == Kueche
    ensures WaiterOrderStatusOf(MarkedReady(o, now).status.value) == Bereit
    ensures WaiterOrderStatusOf(WithStatus(o, "SERVED").status.value) == Serviert
  {
  }

  /** An Owner table as the waiter sees it, named "Tisch " and its number. */
  function ConvertToWaiterTable(t: Table): (w: WaiterTable)
    ensures w.id == t.id && w.restaurantId == t.restaurantId && w.capacity == t.capacity
    ensures w.currentReservationId == t.currentReservationId
    ensures w.name == "Tisch " + t.tableNumber && w.name[|"Tisch "|..] == t.tableNumber
    ensures w.status == WaiterTableStatusOf(TableStatusName(t.status))
  {
    WaiterTable(t.id, t.restaurantId, "Tisch " + t.tableNumber, t.capacity, t.currentReservationId,
                WaiterTableStatusOf(TableStatusName(t.status)))
  }

  function WaiterTables(ts: seq<Table>): (ws: seq<WaiterTable>)
    ensures |ws| == |ts|
    ensures forall i :: 0 <= i < |ts| ==> ws[i] == ConvertToWaiterTable(ts[i])
  {
    seq(|ts|, i requires 0 <= i < |ts| => ConvertToWaiterTable(ts[i]))
  }

  // ---------------------------------------------------------------------------
  // Filling in missing reservation bindings
  // ---------------------------------------------------------------------------

  /** A reservation that names its table and is still to come or at the
      table: PENDING, CONFIRMED or CHECKED_IN. */
  predicate ClaimsTable(x: Reservation, tableId: int) {
    x.tableId == Some(tableId)
    && var s := ReservationStatusName(x.status);
       s == "PENDING" || s == "CONFIRMED" || s == "CHECKED_IN"
  }

  /** The position of the first table with this id, or the length when
      there is none. */
  function FirstIndexOf(tables: seq<WaiterTable>, id: int): (k: nat)
    ensures k <= |tables|
    ensures k < |tables| ==> tables[k].id == id
    ensures forall j :: 0 <= j < k ==> tables[j].id != id
  {
    if tables == [] then 0
    else if tables[0].id == id then 0
    else 1 + FirstIndexOf(tables[1..], id)
  }

  /** One reservation's turn: if it claims a table, the first table with
      that id takes its id, unless that table already has a binding. */
  function BackfillOne(tables: seq<WaiterTable>, x: Reservation): seq<WaiterTable> {
    if x.tableId.Some? && ClaimsTable(x, x.tableId.value) then
      var k := FirstIndexOf(tables, x.tableId.value);
      if k < |tables| && tables[k].currentReservationId.None?
      then tables[k := tables[k].(currentReservationId := Some(x.id))]
      else tables
    else tables
  }

  /** Every reservation's turn, in list order. */
  function Backfill(tables: seq<WaiterTable>, rs: seq<Reservation>): (r: seq<WaiterTable>)
    ensures |r| == |tables|
    ensures forall j :: 0 <= j < |tables| && tables[j].currentReservationId.Some? ==> r[j] == tables[j]
    decreases |rs|
  {
    if rs == [] then tables else BackfillOne(Backfill(tables, rs[..|rs| - 1]), rs[|rs| - 1])
  }

  /** The id of the earliest reservation in the list that claims the table. */
  function FirstClaim(rs: seq<Reservation>, tableId: int): Option<int>
    decreases |rs|
  {
    if rs == [] then None
    else
      var earlier := FirstClaim(rs[..|rs| - 1], tableId);
      if earlier.Some? then earlier
      else if ClaimsTable(rs[|rs| - 1], tableId) then Some(rs[|rs| - 1].id)
      else None
  }

  /** The backfill keeps the tables, their order and every field but the
      binding, and never overwrites a binding that is there. */
  lemma {:induction false} BackfillShape(tables: seq<WaiterTable>, rs: seq<Reservation>)
    ensures |Backfill(tables, rs)| == |tables|
    ensures forall j :: 0 <= j < |tables| ==>
              Backfill(tables, rs)[j].(currentReservationId := tables[j].currentReservationId) == tables[j]
    ensures forall j :: 0 <= j < |tables| && tables[j].currentReservationId.Some? ==> Backfill(tables, rs)[j] == tables[j]
    decreases |rs|
  {
    if rs != [] {
      BackfillShape(tables, rs[..|rs| - 1]);
    }
  }

  /** A table without binding, the first with its id, ends up bound to the
      earliest reservation that claims it, and stays unbound when none does. */
  lemma {:induction false} BackfillBinding(tables: seq<WaiterTable>, rs: seq<Reservation>, j: int)
    requires 0 <= j < |tables| && tables[j].currentReservationId.None?
    requires forall i :: 0 <= i < j ==> tables[i].id != tables[j].id
    ensures |Backfill(tables, rs)| == |tables|
    ensures Backfill(tables, rs)[j].currentReservationId == FirstClaim(rs, tables[j].id)
    decreases |rs|
  {
    BackfillShape(tables, rs);
    if rs != [] {
      var init := rs[..|rs| - 1];
      var x := rs[|rs| - 1];
      BackfillBinding(tables, init, j);
      BackfillShape(tables, init);
      var before := Backfill(tables, init);
      assert forall i :: 0 <= i <= j ==> before[i].id == tables[i].id by {
        forall i | 0 <= i <= j ensures before[i].id == tables[i].id {
          assert before[i].(currentReservationId := tables[i].currentReservationId) == tables[i];
        }
      }
      if x.tableId.Some? && ClaimsTable(x, x.tableId.value) {
        var k := FirstIndexOf(before, x.tableId.value);
        if x.tableId.value == tables[j].id {
          assert k == j;
        } else {
          assert k != j;
        }
      }
    }
  }

  /** The earliest claimant, spelled out: a claim with none before it. */
  lemma {:induction false} FirstClaimIsEarliest(rs: seq<Reservation>, tableId: int, i: int)
    requires 0 <= i < |rs| && ClaimsTable(rs[i], tableId)
    requires forall i' :: 0 <= i' < i ==> !ClaimsTable(rs[i'], tableId)
    ensures FirstClaim(rs, tableId) == Some(rs[i].id)
    decreases |rs|
  {
    var init := rs[..|rs| - 1];
    if i < |rs| - 1 {
      assert forall i' :: 0 <= i' <= i ==> init[i'] == rs[i'];
      FirstClaimIsEarliest(init, tableId, i);
    } else {
      assert forall i' :: 0 <= i' < |init| ==> init[i'] == rs[i'];
      FirstClaimNone(init, tableId);
    }
  }

  /** With no claimant the table stays unbound. */
  lemma {:induction false} FirstClaimNone(rs: seq<Reservation>, tableId: int)
    requires forall i :: 0 <= i < |rs| ==> !ClaimsTable(rs[i], tableId)
    ensures FirstClaim(rs, tableId) == None
    decreases |rs|
  {
    if rs != [] {
      var init := rs[..|rs| - 1];
      assert forall i :: 0 <= i < |init| ==> init[i] == rs[i];
      FirstClaimNone(init, tableId);
    }
  }

  // ---------------------------------------------------------------------------
  // The table an order is for
  // ---------------------------------------------------------------------------

  /** Reservation id to table id, for every reservation with a table; a
      later entry for the same id replaces an earlier one. */
  function ReservationTableIds(rs: seq<Reservation>): (m: map<int, int>)
    ensures forall k :: k in m ==> exists i :: 0 <= i < |rs| && rs[i].id == k && rs[i].tableId == Some(m[k])
    decreases |rs|
  {
    if rs == [] then map[]
    else
      var m := ReservationTableIds(rs[..|rs| - 1]);
      var x := rs[|rs| - 1];
      if x.tableId.Some? then m[x.id := x.tableId.value] else m
  }

  /** With distinct reservation ids (as the Owner's list has), the map holds
      exactly the reservations with a table, each with its own table. */
  lemma {:induction false} ReservationTableIdsLookup(rs: seq<Reservation>)
    requires forall i, j :: 0 <= i < j < |rs| ==> rs[i].id != rs[j].id
    ensures forall i :: 0 <= i < |rs| && rs[i].tableId.Some? ==>
              rs[i].id in ReservationTableIds(rs) && ReservationTableIds(rs)[rs[i].id] == rs[i].tableId.value
    ensures forall k :: k in ReservationTableIds(rs) ==>
              exists i :: 0 <= i < |rs| && rs[i].id == k && rs[i].tableId == Some(ReservationTableIds(rs)[k])
    decreases |rs|
  {
    if rs != [] {
      var init := rs[..|rs| - 1];
      var x := rs[|rs| - 1];
      assert forall i :: 0 <= i < |init| ==> init[i] == rs[i];
      ReservationTableIdsLookup(init);
      var m := ReservationTableIds(rs);
      forall k | k in m
        ensures exists i :: 0 <= i < |rs| && rs[i].id == k && rs[i].tableId == Some(m[k])
      {
        if x.tableId.Some? && k == x.id {
          assert rs[|rs| - 1].id == k;
        } else {
          var i :| 0 <= i < |init| && init[i].id == k && init[i].tableId == Some(ReservationTableIds(init)[k]);
          assert rs[i] == init[i];
        }
      }
    }
  }

  /** The table id of an order: its table number when that is a positive
      number; otherwise its reservation's table, if the reservation has one;
      otherwise the parsed number when there is no reservation to ask, and 0
      for no number at all. */
  function ResolveTableId(tableNumber: Option<string>, reservationId: Option<int>, tableOf: map<int, int>): (r: int)
    ensures var parsed := if tableNumber.Some? then ParseLong(tableNumber.value) else None;
            && (parsed.Some? && parsed.value > 0 ==> r == parsed.value)
            && ((parsed.None? || parsed.value <= 0) && reservationId.Some? ==>
                  r == (if reservationId.value in tableOf then tableOf[reservationId.value] else 0))
            && ((parsed.None? || parsed.value <= 0) && reservationId.None? ==>
                  r == (if parsed.Some? then parsed.value else 0))
  {
    var parsed := if tableNumber.Some? then ParseLong(tableNumber.value) else None;
    var resolved :=
      if (parsed.None? || parsed.value <= 0) && reservationId.Some? then
        (if reservationId.value in tableOf then Some(tableOf[reservationId.value]) else None)
      else parsed;
    if resolved.Some? then resolved.value else 0
  }

  /** An order whose table number is the decimal form of a positive table id
      is for that table; a preorder still at "TBD" is for its reservation's
      table. */
  lemma {:induction false} ResolveTableIdCases(n: int, reservationId: Option<int>, tableOf: map<int, int>)
    requires 0 < n <= LongMax
    ensures ResolveTableId(Some(IntToString(n)), reservationId, tableOf) == n
    ensures reservationId.Some? && reservationId.value in tableOf ==>
              ResolveTableId(Some("TBD"), reservationId, tableOf) == tableOf[reservationId.value]
  {
    ParseLongOfIntToString(n);
    assert !AllDigits("TBD") by { assert !IsDigit("TBD"[0]); }
  }

  /** The waiter's lines of an order: the Cook's lines, or a single
      placeholder line naming the order when it has none. */
  function WaiterItemsOf(o: Order): (items: seq<WaiterItem>)
    ensures o.items == [] ==> items == [WaiterItem("Bestellung #" + IntToString(o.id), 1, None)]
    ensures o.items != [] ==> |items| == |o.items|
    ensures o.items != [] ==> forall i :: 0 <= i < |o.items| ==>
              items[i] == WaiterItem(o.items[i].name, o.items[i].quantity, o.items[i].unitPrice)
  {
    if o.items == [] then [WaiterItem("Bestellung #" + IntToString(o.id), 1, None)]
    else seq(|o.items|, i requires 0 <= i < |o.items| => WaiterItem(o.items[i].name, o.items[i].quantity, o.items[i].unitPrice))
  }

  /** A Cook order as the waiter sees it. Its status must be present: the
      conversion switches on it. */
  function WaiterOrderOf(o: Order, tableOf: map<int, int>): (w: WaiterOrder)
    requires o.status.Some?
    ensures w.id == o.id && w.reservationId == o.reservationId && w.totalPrice == o.totalPrice
    ensures w.status == Bereit <==> o.status.value == "READY"
    ensures w.status == Serviert <==> o.status.value == "SERVED"
    ensures |w.items| == if o.items == [] then 1 else |o.items|
  {
    WaiterOrder(o.id, o.reservationId, ResolveTableId(o.tableNumber, o.reservationId, tableOf),
                WaiterOrderStatusOf(o.status.value), WaiterItemsOf(o), o.totalPrice)
  }

  function WaiterOrders(os: seq<Order>, tableOf: map<int, int>): (ws: seq<WaiterOrder>)
    requires forall i :: 0 <= i < |os| ==> os[i].status.Some?
    ensures |ws| == |os|
    ensures forall i :: 0 <= i < |os| ==> ws[i].id == os[i].id && ws[i].totalPrice == os[i].totalPrice
  {
    seq(|os|, i requires 0 <= i < |os| => WaiterOrderOf(os[i], tableOf))
  }

  /** Every order the Cook hands to the waiter has a status, so the whole
      list converts. */
  lemma {:induction false} WaiterFeedHasStatuses(rows: map<int, Order>)
    ensures forall i :: 0 <= i < |FindWaiterOrders(rows)| ==> FindWaiterOrders(rows)[i].status.Some?
  {
    var os := FindWaiterOrders(rows);
    forall i | 0 <= i < |os| ensures os[i].status.Some? {
      assert os[i] in os;
    }
  }

  /** Every waiter line shows at least one line, and an order shows a single
      line exactly when it has none or one of its own. */
  lemma {:induction false} WaiterItemsNonEmpty(o: Order)
    ensures WaiterItemsOf(o) != []
    ensures |WaiterItemsOf(o)| == 1 <==> |o.items| <= 1
  {
  }

  // ---------------------------------------------------------------------------
  // The service
  // ---------------------------------------------------------------------------

  /** The first reservation in the list sitting at the table. */
  function FirstOnTable(rs: seq<Reservation>, tableId: int): (r: Option<Reservation>)
    ensures r.Some? ==> r.value in rs && r.value.tableId == Some(tableId)
    ensures r.None? ==> forall i :: 0 <= i < |rs| ==> rs[i].tableId != Some(tableId)
  {
    if rs == [] then None
    else if rs[0].tableId == Some(tableId) then Some(rs[0])
    else FirstOnTable(rs[1..], tableId)
  }

  /** The reservation found is the one at the table that comes first: it
      sits at some position `i`, and none of those before it is at the
      table. */
  lemma {:induction false} FirstOnTableIndex(rs: seq<Reservation>, tableId: int) returns (i: nat)
    requires FirstOnTable(rs, tableId).Some?
    ensures i < |rs| && rs[i] == FirstOnTable(rs, tableId).value
    ensures forall i' :: 0 <= i' < i ==> rs[i'].tableId != Some(tableId)
  {
    if rs[0].tableId == Some(tableId) {
      i := 0;
    } else {
      var j := FirstOnTableIndex(rs[1..], tableId);
      i := j + 1;
      assert forall i' :: 0 < i' < i ==> rs[i'] == rs[1..][i' - 1];
    }
  }

  class WaiterService {
    const resService: ResService
    const tableService: TableService
    const paymentService: PaymentService
    const orderService: OrderService

    /** The services share the Owner's repositories. */
    ghost predicate Valid()
      reads this, resService, resService.reservations, resService.tables, tableService, tableService.tables
      reads paymentService, paymentService.payments, orderService, orderService.orders
    {
      resService.Valid() && tableService.Valid() && paymentService.Valid() && orderService.Valid()
      && tableService.tables == resService.tables && paymentService.resService == resService
    }

    constructor(resService: ResService, tableService: TableService, paymentService: PaymentService, orderService: OrderService)
      requires resService.Valid() && tableService.Valid() && paymentService.Valid() && orderService.Valid()
      requires tableService.tables == resService.tables && paymentService.resService == resService
      ensures this.resService == resService && this.tableService == tableService
      ensures this.paymentService == paymentService && this.orderService == orderService
      ensures Valid()
    {
      this.resService := resService;
      this.tableService := tableService;
      this.paymentService := paymentService;
      this.orderService := orderService;
    }

    /** A change to the Owner's repositories that keeps the Owner's service
        valid keeps the Waiter's services valid. */
    twostate lemma ValidAfterOwnerChange()
      requires old(Valid()) && resService.Valid()
      requires unchanged(paymentService.payments, orderService.orders)
      ensures Valid()
    {
    }

    /** The backfill loop over the Owner's reservations. */
    method BackfillBindings(tables: seq<WaiterTable>, reservations: seq<Reservation>) returns (result: seq<WaiterTable>)
      ensures result == Backfill(tables, reservations)
    {
      result := tables;
      var i := 0;
      while i < |reservations|
        invariant 0 <= i <= |reservations|
        invariant result == Backfill(tables, reservations[..i])
      {
        var x := reservations[i];
        assert reservations[..i + 1][..i] == reservations[..i];
        if x.tableId.Some? && (x.status == Pending || x.status == Confirmed || x.status == CheckedIn) {
          var k := FirstIndexOf(result, x.tableId.value);
          if k < |result| && result[k].currentReservationId.None? {
            result := result[k := result[k].(currentReservationId := Some(x.id))];
          }
        }
        i := i + 1;
      }
      assert reservations[..i] == reservations;
    }

    /** The loop that maps each reservation with a table to that table. */
    method ReservationTableMap(reservations: seq<Reservation>) returns (tableOf: map<int, int>)
      ensures tableOf == ReservationTableIds(reservations)
    {
      tableOf := map[];
      var i := 0;
      while i < |reservations|
        invariant 0 <= i <= |reservations|
        invariant tableOf == ReservationTableIds(reservations[..i])
      {
        assert reservations[..i + 1][..i] == reservations[..i];
        if reservations[i].tableId.Some? {
          tableOf := tableOf[reservations[i].id := reservations[i].tableId.value];
        }
        i := i + 1;
      }
      assert reservations[..i] == reservations;
    }

    /** One order for the waiter, its lines copied one by one. */
    method ConvertToWaiterOrder(o: Order, tableOf: map<int, int>) returns (w: WaiterOrder)
      requires o.status.Some?
      ensures w == WaiterOrderOf(o, tableOf)
    {
      var items: seq<WaiterItem> := [];
      if o.items != [] {
        var i := 0;
        while i < |o.items|
          invariant 0 <= i <= |o.items|
          invariant |items| == i
          invariant forall k :: 0 <= k < i ==> items[k] == WaiterItem(o.items[k].name, o.items[k].quantity, o.items[k].unitPrice)
        {
          items := items + [WaiterItem(o.items[i].name, o.items[i].quantity, o.items[i].unitPrice)];
          i := i + 1;
        }
      } else {
        items := [WaiterItem("Bestellung #" + IntToString(o.id), 1, None)];
      }
      w := WaiterOrder(o.id, o.reservationId, ResolveTableId(o.tableNumber, o.reservationId, tableOf),
                       WaiterOrderStatusOf(o.status.value), items, o.totalPrice);
    }

    /** The waiter's view from what the Owner and the Cook report: the
        tables, every reservation, and the orders the waiter is shown. */
    method GetState() returns (state: WaiterState)
      ensures var allReservations := resService.GetAllReservations();
              state.tables == Backfill(WaiterTables(tableService.GetAllTables()), allReservations)
              && state.orders == WaiterOrders(orderService.GetWaiterOrders(), ReservationTableIds(allReservations))
    {
      var ownerTables := tableService.GetAllTables();
      var allReservations := resService.GetAllReservations();
      var cookOrders := orderService.GetWaiterOrders();
      var tables := BackfillBindings(WaiterTables(ownerTables), allReservations);
      var tableOf := ReservationTableMap(allReservations);
      var orders := ConvertToWaiterOrders(cookOrders, tableOf);
      state := WaiterState(tables, orders);
    }

    /** The stream over the Cook's orders: each converted in list order. */
    method ConvertToWaiterOrders(cookOrders: seq<Order>, tableOf: map<int, int>) returns (orders: seq<WaiterOrder>)
      requires forall i :: 0 <= i < |cookOrders| ==> cookOrders[i].status.Some?
      ensures orders == WaiterOrders(cookOrders, tableOf)
    {
      orders := [];
      var i := 0;
      while i < |cookOrders|
        invariant 0 <= i <= |cookOrders|
        invariant |orders| == i
        invariant forall k :: 0 <= k < i ==> orders[k] == WaiterOrderOf(cookOrders[k], tableOf)
      {
        var w := ConvertToWaiterOrder(cookOrders[i], tableOf);
        orders := orders + [w];
        i := i + 1;
      }
    }

    /** The first step of finishing a table: the first checked-in
        reservation at the table, if there is one, is completed, which puts
        the table in CLEANING. */
    method CompleteActiveAt(tableId: int)
      requires Valid()
      modifies resService.reservations, resService.tables
      ensures Valid()
      ensures FirstActiveCompleted(old(resService.reservations.rows), tableId, resService.reservations.rows)
      ensures ActiveTableCleaning(old(resService.reservations.rows), old(resService.tables.rows), tableId, resService.tables.rows)
      ensures resService.reservations.nextId == old(resService.reservations.nextId)
      ensures resService.tables.nextId == old(resService.tables.nextId)
    {
      // The Owner answers the request for CHECKED_IN reservations with its
      // active reservations (SameCheckedInList).
      var active := resService.GetActiveReservations();
      var first := FirstOnTable(active, tableId);
      if first.Some? {
        var x := first.value;
        StoredActiveReservation(x);
        var completed := resService.CompleteReservation(x.id);
        ValidAfterOwnerChange();
      }
    }

    /** Completes the first checked-in reservation at the table, if there is
        one, then marks the table AVAILABLE and unbound. Answers whether the
        table could be marked; it does not look at the table's orders. */
    method FinishTable(tableId: int) returns (ok: bool)
      requires Valid()
      modifies resService.reservations, resService.tables
      ensures Valid()
      ensures ok <==> tableId in old(resService.tables.rows)
      ensures FirstActiveCompleted(old(resService.reservations.rows), tableId, resService.reservations.rows)
      ensures ok ==> resService.tables.rows ==
                       old(resService.tables.rows)[tableId := old(resService.tables.rows[tableId]).(status := Available, currentReservationId := None)]
      ensures !ok ==> resService.tables.rows == old(resService.tables.rows)
      ensures resService.reservations.nextId == old(resService.reservations.nextId)
      ensures resService.tables.nextId == old(resService.tables.nextId)
    {
      ghost var tables0 := resService.tables.rows;
      CompleteActiveAt(tableId);
      ReleaseThenAvailable(tables0, tableId);
      var marked := tableService.MarkAsAvailable(tableId);
      ok := marked.Ok?;
    }

    /** The Owner's CHECKED_IN list is the list of active reservations. */
    lemma {:induction false} SameCheckedInList()
      ensures resService.GetReservationsByStatus("CHECKED_IN").Ok?
      ensures resService.GetReservationsByStatus("CHECKED_IN").value == resService.GetActiveReservations()
    {
      CheckedInNameIsUpper();
      CheckedInNameParses();
    }

    /** A listed active reservation is stored under its id and can be
        completed. */
    lemma {:induction false} StoredActiveReservation(x: Reservation)
      requires Valid() && x in resService.GetActiveReservations()
      ensures x.id in resService.reservations.rows && resService.reservations.rows[x.id] == x
      ensures CanComplete(x.status)
    {
      var rows := resService.reservations.rows;
      if forall id :: id in rows ==> rows[id] != x {
        assert false;
      }
      var id :| id in rows && rows[id] == x;
    }

    /** Takes a cash payment at the Owner; once it is recorded, the
        reservation is completed too, but a completion the Owner refuses is
        ignored and the payment still returned. */
    method ProcessCashPayment(reservationId: int, amount: int, now: int, nowMillis: int) returns (r: Result<Payment>)
      requires Valid()
      modifies paymentService.payments, resService.reservations, resService.tables
      ensures Valid()
      ensures r.Ok? <==> reservationId in old(resService.reservations.rows)
                         && IsReservationPaid(old(paymentService.payments.rows), reservationId) == Ok(false)
      ensures r.Ok? ==> r.value == CompletedAt(NewPayment(old(paymentService.payments.nextId), reservationId, amount, Cash),
                                               "CASH_" + IntToString(nowMillis), now)
                        && paymentService.payments.rows == old(paymentService.payments.rows)[r.value.id := r.value]
      ensures r.Ok? ==> CompletedAfterPayment(old(resService.reservations.rows), old(resService.tables.rows), reservationId,
                                              resService.reservations.rows, resService.tables.rows)
      ensures r.Err? ==> paymentService.payments.rows == old(paymentService.payments.rows)
                         && resService.reservations.rows == old(resService.reservations.rows)
                         && resService.tables.rows == old(resService.tables.rows)
    {
      r := paymentService.ProcessCashPayment(reservationId, amount, now, nowMillis);
      if r.Ok? {
        var _ := resService.CompleteReservation(reservationId);
      }
    }

    /** The same for a simulated card payment; `interrupted` is whether the
        Owner's simulated processing delay is cut short. */
    method ProcessCardPayment(reservationId: int, amount: int, uuid: string, interrupted: bool, now: int)
      returns (r: Result<Payment>)
      requires Valid()
      modifies paymentService.payments, resService.reservations, resService.tables
      ensures Valid()
      ensures r.Ok? <==> reservationId in old(resService.reservations.rows)
                         && IsReservationPaid(old(paymentService.payments.rows), reservationId) == Ok(false) && !interrupted
      ensures r.Ok? ==> r.value == CompletedAt(NewPayment(old(paymentService.payments.nextId), reservationId, amount, CreditCard),
                                               "CARD_" + uuid, now)
                        && paymentService.payments.rows == old(paymentService.payments.rows)[r.value.id := r.value]
      ensures r.Ok? ==> CompletedAfterPayment(old(resService.reservations.rows), old(resService.tables.rows), reservationId,
                                              resService.reservations.rows, resService.tables.rows)
      ensures r.Err? ==> paymentService.payments.rows == old(paymentService.payments.rows)
                         && resService.reservations.rows == old(resService.reservations.rows)
                         && resService.tables.rows == old(resService.tables.rows)
    {
      r := paymentService.ProcessMockCreditCardPayment(reservationId, amount, uuid, interrupted, now);
      if r.Ok? {
        var _ := resService.CompleteReservation(reservationId);
      }
    }

    /** Asks the Cook to mark the order SERVED; an unknown order is ignored. */
    method MarkOrderServed(orderId: int)
      requires Valid()
      modifies orderService.orders
      ensures Valid()
      ensures orderId in old(orderService.orders.rows) ==>
                orderService.orders.rows == old(orderService.orders.rows)[orderId := WithStatus(old(orderService.orders.rows[orderId]), "SERVED")]
      ensures orderId !in old(orderService.orders.rows) ==> orderService.orders.rows == old(orderService.orders.rows)
    {
      var _ := orderService.MarkAsServed(orderId);
    }

    /** Asks the Owner to mark the table for cleaning; an unknown table is
        ignored. */
    method ClearTable(tableId: int)
      requires Valid()
      modifies resService.tables
      ensures Valid()
      ensures tableId in old(resService.tables.rows) ==>
                resService.tables.rows == old(resService.tables.rows)[tableId := old(resService.tables.rows[tableId]).(status := Cleaning)]
      ensures tableId !in old(resService.tables.rows) ==> resService.tables.rows == old(resService.tables.rows)
    {
      var _ := tableService.MarkForCleaning(tableId);
    }
  }

  /** The name the Waiter asks for is already upper case. */
  lemma {:induction false} CheckedInNameIsUpper()
    ensures ToUpper("CHECKED_IN") == "CHECKED_IN"
  {
    ToUpperOfUpper("CHECKED_IN");
  }

  /** The name the Waiter asks for is the CHECKED_IN constant's own. */
  lemma {:induction false} CheckedInNameParses()
    ensures ParseReservationStatus("CHECKED_IN") == Some(CheckedIn)
  {
  }

  /** Marking a table AVAILABLE after it was released for cleaning leaves
      the same tables as marking it AVAILABLE straight away. */
  lemma {:induction false} ReleaseThenAvailable(tables: map<int, Table>, tableId: int)
    ensures var released := ReleaseTable(tables, Some(tableId), Cleaning);
            && released.Keys == tables.Keys
            && (tableId in tables ==>
                  released[tableId := released[tableId].(status := Available, currentReservationId := None)]
                  == tables[tableId := tables[tableId].(status := Available, currentReservationId := None)])
  {
  }

  /** The first checked-in reservation listed at the table, if there is
      one, is COMPLETED in `rows`; no other reservation changed. */
  ghost predicate FirstActiveCompleted(rows0: map<int, Reservation>, tableId: int, rows: map<int, Reservation>)
  {
    var first := FirstOnTable(ReservationQueries.FindActiveReservations(rows0), tableId);
    if first.Some? then rows == rows0[first.value.id := first.value.(status := Completed)]
    else rows == rows0
  }

  /** The table is released for CLEANING when a checked-in reservation is
      listed at it; otherwise the tables are unchanged. */
  ghost predicate ActiveTableCleaning(rows0: map<int, Reservation>, tables0: map<int, Table>, tableId: int, tables: map<int, Table>)
  {
    if FirstOnTable(ReservationQueries.FindActiveReservations(rows0), tableId).Some?
    then tables == ReleaseTable(tables0, Some(tableId), Cleaning)
    else tables == tables0
  }

  /** After a payment: the reservation is COMPLETED and its table CLEANING
      when its status allowed completion, and nothing changed otherwise. */
  ghost predicate CompletedAfterPayment(rows0: map<int, Reservation>, tables0: map<int, Table>, reservationId: int,
                                         rows: map<int, Reservation>, tables: map<int, Table>)
  {
    if reservationId in rows0 && CanComplete(rows0[reservationId].status) then
      rows == rows0[reservationId := rows0[reservationId].(status := Completed)]
      && tables == ReleaseTable(tables0, rows0[reservationId].tableId, Cleaning)
    else rows == rows0 && tables == tables0
  }
}
