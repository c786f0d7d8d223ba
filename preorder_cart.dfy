/** The customer's preorder page: a cart of menu lines that the "+", "-" and
    "x" buttons change in place, its running total, and the preorder it
    sends to the Cook service. Prices are in cents. */
module Cart {
  import opened Common
  import opened OrderQueries
  import opened Kitchen

  /** One line of the cart. */
  datatype CartEntry = CartEntry(menuItemId: int, name: string, quantity: int, unitPrice: int)

  // ---------------------------------------------------------------------------
  // Lookups
  // ---------------------------------------------------------------------------

  /** `findIndex`: the position of the first line for the menu item, or -1. */
  function FindEntry(entries: seq<CartEntry>, menuItemId: int): (i: int)
    ensures -1 <= i < |entries|
    ensures i >= 0 ==> entries[i].menuItemId == menuItemId
    ensures forall k :: 0 <= k < |entries| && (i < 0 || k < i) ==> entries[k].menuItemId != menuItemId
  {
    if entries == [] then -1
    else if entries[0].menuItemId == menuItemId then 0
    else var i := FindEntry(entries[1..], menuItemId); if i < 0 then -1 else i + 1
  }

  /** The number shown beside a menu item: its line's quantity, or 0. */
  function Quantity(entries: seq<CartEntry>, menuItemId: int): int {
    var i := FindEntry(entries, menuItemId);
    if i >= 0 then entries[i].quantity else 0
  }

  /** In a well-formed cart the count beside an item is positive exactly
      when the item has a line. */
  lemma {:induction false} QuantityShowsPresence(entries: seq<CartEntry>, menuItemId: int)
    requires WellFormed(entries)
    ensures Quantity(entries, menuItemId) >= 0
    ensures Quantity(entries, menuItemId) > 0 <==> exists i :: 0 <= i < |entries| && entries[i].menuItemId == menuItemId
  {
  }

  /** A cart the buttons can produce: one line per menu item, none with a
      quantity below one. */
  predicate WellFormed(entries: seq<CartEntry>) {
    (forall i, j :: 0 <= i < j < |entries| ==> entries[i].menuItemId != entries[j].menuItemId)
    && (forall i :: 0 <= i < |entries| ==> entries[i].quantity >= 1)
  }

  // ---------------------------------------------------------------------------
  // The three buttons, on values
  // ---------------------------------------------------------------------------

  /** `increaseQuantity`: one more of an item already in the cart (its name
      and price stay as first added); otherwise a new line of one. */
  function Increased(entries: seq<CartEntry>, menuItemId: int, name: string, unitPrice: int): (r: seq<CartEntry>)
    ensures |r| == |entries| || |r| == |entries| + 1
    ensures forall k :: 0 <= k < |entries| ==>
              r[k].menuItemId == entries[k].menuItemId && r[k].unitPrice == entries[k].unitPrice
  {
    var i := FindEntry(entries, menuItemId);
    if i >= 0 then entries[i := entries[i].(quantity := entries[i].quantity + 1)]
    else entries + [CartEntry(menuItemId, name, 1, unitPrice)]
  }

  /** The cart without its line at position `i`, as `splice(i, 1)` leaves it. */
  function Without(entries: seq<CartEntry>, i: nat): (r: seq<CartEntry>)
    requires i < |entries|
    ensures |r| == |entries| - 1
  {
    entries[..i] + entries[i + 1..]
  }

  /** `decreaseQuantity`: one fewer of the item; its last one takes the line
      away; an item not in the cart changes nothing. */
  function Decreased(entries: seq<CartEntry>, menuItemId: int): (r: seq<CartEntry>)
    ensures |r| == |entries| || |r| + 1 == |entries|
    ensures forall k :: 0 <= k < |r| && r[k].menuItemId != menuItemId ==> r[k] in entries
  {
    var i := FindEntry(entries, menuItemId);
    if i < 0 then entries
    else if entries[i].quantity > 1 then entries[i := entries[i].(quantity := entries[i].quantity - 1)]
    else Without(entries, i)
  }

  /** `removeFromCart`: the item's line goes, whatever its quantity. */
  function Removed(entries: seq<CartEntry>, menuItemId: int): (r: seq<CartEntry>)
    ensures |r| == |entries| || |r| + 1 == |entries|
    ensures forall k :: 0 <= k < |r| ==> r[k] in entries
  {
    var i := FindEntry(entries, menuItemId);
    if i < 0 then entries else Without(entries, i)
  }

  // ---------------------------------------------------------------------------
  // The total
  // ---------------------------------------------------------------------------

  function EntryTotal(e: CartEntry): int { e.unitPrice * e.quantity }

  /** `calculateTotal`: the sum of unit price times quantity over the lines. */
  function CartTotal(entries: seq<CartEntry>): (total: int)
    ensures (forall i :: 0 <= i < |entries| ==> NonNegativeEntry(entries[i])) ==> total >= 0
  {
    if entries == [] then 0 else CartTotal(entries[..|entries| - 1]) + EntryTotal(entries[|entries| - 1])
  }

  /** One more or one fewer of a line changes its amount by its unit price. */
  lemma {:induction false} EntryTotalStep(e: CartEntry, d: int)
    ensures EntryTotal(e.(quantity := e.quantity + d)) == EntryTotal(e) + d * e.unitPrice
  {
    assert e.unitPrice * (e.quantity + d) == e.unitPrice * e.quantity + d * e.unitPrice;
  }

  lemma {:induction false} EntryTotalOfOne(e: CartEntry)
    requires e.quantity == 1
    ensures EntryTotal(e) == e.unitPrice
  {
  }

  lemma {:induction false} CartTotalAppend(a: seq<CartEntry>, b: seq<CartEntry>)
    ensures CartTotal(a + b) == CartTotal(a) + CartTotal(b)
    decreases |b|
  {
    if b == [] {
      assert a + b == a;
    } else {
      var b' := b[..|b| - 1];
      assert (a + b)[..|a + b| - 1] == a + b';
      CartTotalAppend(a, b');
    }
  }

  predicate NonNegativeEntry(e: CartEntry) { e.unitPrice >= 0 && e.quantity >= 0 }

  lemma {:induction false} SplitAtLine(entries: seq<CartEntry>, i: nat)
    requires i < |entries|
    ensures entries == entries[..i] + [entries[i]] + entries[i + 1..]
  {
  }

  /** Replacing one line changes the total by the difference of the two
      lines. */
  lemma {:induction false} TotalAfterUpdate(entries: seq<CartEntry>, i: nat, e: CartEntry)
    requires i < |entries|
    ensures CartTotal(entries[i := e]) == CartTotal(entries) - EntryTotal(entries[i]) + EntryTotal(e)
  {
    SplitAtLine(entries, i);
    SplitAtLine(entries[i := e], i);
    assert entries[i := e][..i] == entries[..i] && entries[i := e][i + 1..] == entries[i + 1..];
    CartTotalAppend(entries[..i] + [entries[i]], entries[i + 1..]);
    CartTotalAppend(entries[..i] + [e], entries[i + 1..]);
    CartTotalAppend(entries[..i], [entries[i]]);
    CartTotalAppend(entries[..i], [e]);
  }

  /** Taking one line away lowers the total by that line's amount. */
  lemma {:induction false} TotalAfterWithout(entries: seq<CartEntry>, i: nat)
    requires i < |entries|
    ensures CartTotal(Without(entries, i)) == CartTotal(entries) - EntryTotal(entries[i])
  {
    var before, after := entries[..i], entries[i + 1..];
    SplitAtLine(entries, i);
    assert Without(entries, i) == before + after;
    CartTotalAppend(before + [entries[i]], after);
    CartTotalAppend(before, [entries[i]]);
    CartTotalAppend(before, after);
  }

  // ---------------------------------------------------------------------------
  // What the buttons promise
  // ---------------------------------------------------------------------------

  /** The position `f` meets `findIndex`'s description, so it is the one
      `FindEntry` returns. */
  lemma {:induction false} FindEntryIs(entries: seq<CartEntry>, menuItemId: int, f: int)
    requires -1 <= f < |entries|
    requires f >= 0 ==> entries[f].menuItemId == menuItemId
    requires forall k :: 0 <= k < |entries| && (f < 0 || k < f) ==> entries[k].menuItemId != menuItemId
    ensures FindEntry(entries, menuItemId) == f
  {
  }

  /** Two carts with the same items line by line. */
  predicate SameItems(a: seq<CartEntry>, b: seq<CartEntry>) {
    |a| == |b| && forall x :: 0 <= x < |a| ==> a[x].menuItemId == b[x].menuItemId
  }

  lemma {:induction false} FindEntrySameItems(a: seq<CartEntry>, b: seq<CartEntry>, menuItemId: int)
    requires SameItems(a, b)
    ensures FindEntry(a, menuItemId) == FindEntry(b, menuItemId)
  {
    FindEntryIs(b, menuItemId, FindEntry(a, menuItemId));
  }

  lemma {:induction false} FindEntryAppend(entries: seq<CartEntry>, e: CartEntry, menuItemId: int)
    ensures FindEntry(entries + [e], menuItemId)
              == if FindEntry(entries, menuItemId) >= 0 then FindEntry(entries, menuItemId)
                 else if e.menuItemId == menuItemId then |entries| else -1
  {
    var r := entries + [e];
    assert forall x :: 0 <= x < |entries| ==> r[x] == entries[x];
    var f := FindEntry(entries, menuItemId);
    FindEntryIs(r, menuItemId, if f >= 0 then f else if e.menuItemId == menuItemId then |entries| else -1);
  }

  /** The lines of the cart without line `i`: those before it, then those
      after it moved up by one. */
  lemma {:induction false} WithoutIndex(entries: seq<CartEntry>, i: nat)
    requires i < |entries|
    ensures forall x :: 0 <= x < |Without(entries, i)| ==>
              Without(entries, i)[x] == if x < i then entries[x] else entries[x + 1]
  {
    var before, after := entries[..i], entries[i + 1..];
    assert Without(entries, i) == before + after;
    forall x | 0 <= x < |before + after|
      ensures (before + after)[x] == if x < i then entries[x] else entries[x + 1]
    {
      if x >= i {
        assert (before + after)[x] == after[x - i];
      }
    }
  }

  /** Lines after the one taken away move up by one. */
  lemma {:induction false} FindEntryWithout(entries: seq<CartEntry>, i: nat, menuItemId: int)
    requires i < |entries| && entries[i].menuItemId != menuItemId
    ensures var j := FindEntry(entries, menuItemId);
            FindEntry(Without(entries, i), menuItemId) == if j < 0 then -1 else if j < i then j else j - 1
  {
    WithoutIndex(entries, i);
    var j := FindEntry(entries, menuItemId);
    FindEntryIs(Without(entries, i), menuItemId, if j < 0 then -1 else if j < i then j else j - 1);
  }

  lemma {:induction false} WithoutDropsItem(entries: seq<CartEntry>, i: nat)
    requires WellFormed(entries) && i < |entries|
    ensures FindEntry(Without(entries, i), entries[i].menuItemId) == -1
  {
    WithoutIndex(entries, i);
    FindEntryIs(Without(entries, i), entries[i].menuItemId, -1);
  }

  lemma {:induction false} WithoutWellFormed(entries: seq<CartEntry>, i: nat)
    requires WellFormed(entries) && i < |entries|
    ensures WellFormed(Without(entries, i))
  {
    WithoutIndex(entries, i);
    var r := Without(entries, i);
    forall a, b | 0 <= a < b < |r|
      ensures r[a].menuItemId != r[b].menuItemId
    {
      var a', b' := if a < i then a else a + 1, if b < i then b else b + 1;
      assert r[a] == entries[a'] && r[b] == entries[b'];
    }
  }

  /** Taking away the line at `i` makes its item's count zero, touches no
      other item's count and keeps the cart well formed. */
  lemma {:induction false} WithoutEffect(entries: seq<CartEntry>, i: nat)
    requires WellFormed(entries) && i < |entries|
    ensures Quantity(Without(entries, i), entries[i].menuItemId) == 0
    ensures forall k :: k != entries[i].menuItemId ==> Quantity(Without(entries, i), k) == Quantity(entries, k)
    ensures WellFormed(Without(entries, i))
  {
    WithoutDropsItem(entries, i);
    WithoutWellFormed(entries, i);
    forall k | k != entries[i].menuItemId
      ensures Quantity(Without(entries, i), k) == Quantity(entries, k)
    {
      FindEntryWithout(entries, i, k);
    }
  }

  /** Changing the quantity of the line at `i` changes only that item's
      count. */
  lemma {:induction false} RequantifiedEffect(entries: seq<CartEntry>, i: nat, quantity: int)
    requires i < |entries|
    ensures var r := entries[i := entries[i].(quantity := quantity)];
            FindEntry(r, entries[i].menuItemId) == FindEntry(entries, entries[i].menuItemId)
            && forall k :: k != entries[i].menuItemId ==> Quantity(r, k) == Quantity(entries, k)
  {
    var r := entries[i := entries[i].(quantity := quantity)];
    assert SameItems(r, entries);
    FindEntrySameItems(r, entries, entries[i].menuItemId);
    forall k | k != entries[i].menuItemId
      ensures Quantity(r, k) == Quantity(entries, k)
    {
      FindEntrySameItems(r, entries, k);
    }
  }

  /** A new quantity of at least one keeps the cart well formed. */
  lemma {:induction false} RequantifiedWellFormed(entries: seq<CartEntry>, i: nat, quantity: int)
    requires WellFormed(entries) && i < |entries| && quantity >= 1
    ensures WellFormed(entries[i := entries[i].(quantity := quantity)])
  {
    var r := entries[i := entries[i].(quantity := quantity)];
    assert forall x :: 0 <= x < |r| ==> r[x].menuItemId == entries[x].menuItemId;
  }

  /** A new last line for an item not yet in the cart shows its quantity and
      touches no other item's count. */
  lemma {:induction false} AppendEffect(entries: seq<CartEntry>, e: CartEntry)
    requires FindEntry(entries, e.menuItemId) < 0
    ensures Quantity(entries + [e], e.menuItemId) == e.quantity
    ensures forall k :: k != e.menuItemId ==> Quantity(entries + [e], k) == Quantity(entries, k)
  {
    FindEntryAppend(entries, e, e.menuItemId);
    forall k | k != e.menuItemId
      ensures Quantity(entries + [e], k) == Quantity(entries, k)
    {
      FindEntryAppend(entries, e, k);
    }
  }

  /** A new line of at least one for an item not yet in the cart keeps it
      well formed. */
  lemma {:induction false} AppendWellFormed(entries: seq<CartEntry>, e: CartEntry)
    requires WellFormed(entries) && FindEntry(entries, e.menuItemId) < 0 && e.quantity >= 1
    ensures WellFormed(entries + [e])
  {
    var r := entries + [e];
    forall a, b | 0 <= a < b < |r|
      ensures r[a].menuItemId != r[b].menuItemId
    {
      assert r[a] == entries[a];
      if b < |entries| {
        assert r[b] == entries[b];
      }
    }
  }

  /** "+" shows one more of the item, leaves every other item's count as it
      was, and keeps one line per item. */
  lemma {:induction false} IncreaseEffect(entries: seq<CartEntry>, menuItemId: int, name: string, unitPrice: int)
    ensures Quantity(Increased(entries, menuItemId, name, unitPrice), menuItemId) == Quantity(entries, menuItemId) + 1
    ensures forall k :: k != menuItemId ==>
              Quantity(Increased(entries, menuItemId, name, unitPrice), k) == Quantity(entries, k)
    ensures WellFormed(entries) ==> WellFormed(Increased(entries, menuItemId, name, unitPrice))
  {
    var i := FindEntry(entries, menuItemId);
    if i >= 0 {
      RequantifiedEffect(entries, i, entries[i].quantity + 1);
      if WellFormed(entries) {
        RequantifiedWellFormed(entries, i, entries[i].quantity + 1);
      }
    } else {
      var e := CartEntry(menuItemId, name, 1, unitPrice);
      AppendEffect(entries, e);
      if WellFormed(entries) {
        AppendWellFormed(entries, e);
      }
    }
  }

  /** "+" raises the total by the unit price the item's line carries. */
  lemma {:induction false} IncreaseTotal(entries: seq<CartEntry>, menuItemId: int, name: string, unitPrice: int)
    ensures var i := FindEntry(entries, menuItemId);
            CartTotal(Increased(entries, menuItemId, name, unitPrice))
              == CartTotal(entries) + (if i >= 0 then entries[i].unitPrice else unitPrice)
  {
    var i := FindEntry(entries, menuItemId);
    if i >= 0 {
      TotalAfterUpdate(entries, i, entries[i].(quantity := entries[i].quantity + 1));
      EntryTotalStep(entries[i], 1);
    } else {
      var e := CartEntry(menuItemId, name, 1, unitPrice);
      CartTotalAppend(entries, [e]);
      assert [e][..0] == [];
    }
  }

  /** "-" shows one fewer of the item, never below zero, leaves every other
      item's count as it was, and keeps the cart well formed. */
  lemma {:induction false} DecreaseEffect(entries: seq<CartEntry>, menuItemId: int)
    requires WellFormed(entries)
    ensures Quantity(Decreased(entries, menuItemId), menuItemId)
              == if Quantity(entries, menuItemId) > 0 then Quantity(entries, menuItemId) - 1 else 0
    ensures forall k :: k != menuItemId ==> Quantity(Decreased(entries, menuItemId), k) == Quantity(entries, k)
    ensures WellFormed(Decreased(entries, menuItemId))
  {
    var i := FindEntry(entries, menuItemId);
    if i >= 0 && entries[i].quantity > 1 {
      RequantifiedEffect(entries, i, entries[i].quantity - 1);
    } else if i >= 0 {
      WithoutEffect(entries, i);
    }
  }

  /** "x" takes the item out of the cart and leaves every other item's count
      as it was. */
  lemma {:induction false} RemoveEffect(entries: seq<CartEntry>, menuItemId: int)
    requires WellFormed(entries)
    ensures Quantity(Removed(entries, menuItemId), menuItemId) == 0
    ensures forall k :: k != menuItemId ==> Quantity(Removed(entries, menuItemId), k) == Quantity(entries, k)
    ensures WellFormed(Removed(entries, menuItemId))
  {
    var i := FindEntry(entries, menuItemId);
    if i >= 0 {
      WithoutEffect(entries, i);
    }
  }

  /** Adding one to a line and taking one away gives back the cart. */
  lemma {:induction false} UndoRequantified(entries: seq<CartEntry>, i: nat)
    requires i < |entries| && entries[i].quantity >= 1
    requires FindEntry(entries, entries[i].menuItemId) == i
    ensures Decreased(entries[i := entries[i].(quantity := entries[i].quantity + 1)], entries[i].menuItemId) == entries
  {
    RequantifiedEffect(entries, i, entries[i].quantity + 1);
    var r := entries[i := entries[i].(quantity := entries[i].quantity + 1)];
    assert r[i := r[i].(quantity := r[i].quantity - 1)] == entries;
  }

  /** A new last line of one and taking one away gives back the cart. */
  lemma {:induction false} UndoAppend(entries: seq<CartEntry>, e: CartEntry)
    requires FindEntry(entries, e.menuItemId) < 0 && e.quantity == 1
    ensures Decreased(entries + [e], e.menuItemId) == entries
  {
    FindEntryAppend(entries, e, e.menuItemId);
    assert Without(entries + [e], |entries|) == entries;
  }

  /** "-" right after "+" on the same item gives back the cart it started
      from. */
  lemma {:induction false} DecreaseUndoesIncrease(entries: seq<CartEntry>, menuItemId: int, name: string, unitPrice: int)
    requires WellFormed(entries)
    ensures Decreased(Increased(entries, menuItemId, name, unitPrice), menuItemId) == entries
  {
    var i := FindEntry(entries, menuItemId);
    if i >= 0 {
      UndoRequantified(entries, i);
    } else {
      UndoAppend(entries, CartEntry(menuItemId, name, 1, unitPrice));
    }
  }

  /** "-" lowers the total by the item's unit price; an item not in the cart
      leaves it as it was. */
  lemma {:induction false} DecreaseTotal(entries: seq<CartEntry>, menuItemId: int)
    requires WellFormed(entries)
    ensures var i := FindEntry(entries, menuItemId);
            CartTotal(Decreased(entries, menuItemId)) == CartTotal(entries) - (if i >= 0 then entries[i].unitPrice else 0)
  {
    var i := FindEntry(entries, menuItemId);
    if i >= 0 {
      if entries[i].quantity > 1 {
        TotalAfterUpdate(entries, i, entries[i].(quantity := entries[i].quantity + -1));
        EntryTotalStep(entries[i], -1);
      } else {
        assert entries[i].quantity == 1;
        EntryTotalOfOne(entries[i]);
        TotalAfterWithout(entries, i);
      }
    }
  }

  /** "x" lowers the total by the item's line; an item not in the cart
      leaves it as it was. */
  lemma {:induction false} RemoveTotal(entries: seq<CartEntry>, menuItemId: int)
    ensures var i := FindEntry(entries, menuItemId);
            CartTotal(Removed(entries, menuItemId)) == CartTotal(entries) - (if i >= 0 then EntryTotal(entries[i]) else 0)
  {
    var i := FindEntry(entries, menuItemId);
    if i >= 0 {
      TotalAfterWithout(entries, i);
    }
  }

  // ---------------------------------------------------------------------------
  // Sending the preorder
  // ---------------------------------------------------------------------------

  /** A cart line as the preorder carries it: no special instructions. */
  function ToPreorderItem(e: CartEntry): PreorderItem {
    PreorderItem(Some(e.menuItemId), e.name, e.quantity, Some(e.unitPrice), None)
  }

  function ToPreorderItems(entries: seq<CartEntry>): (r: seq<PreorderItem>)
    ensures |r| == |entries|
  {
    seq(|entries|, k requires 0 <= k < |entries| => ToPreorderItem(entries[k]))
  }

  /** `submitPreorder`'s request: nothing for an empty cart; otherwise the
      reservation from the page, restaurant 1 unless the page names one, no
      table, the lines, the wishes unless left empty, and the reservation's
      time. */
  function PreorderPayload(entries: seq<CartEntry>, specialRequests: string, reservationId: Option<int>,
                           restaurantId: Option<int>, reservationDateTime: Option<int>): (r: Option<PreorderRequest>)
    ensures r.None? <==> entries == []
    ensures r.Some? ==> r.value.reservationId == reservationId && r.value.tableNumber.None?
                        && r.value.restaurantId == Some(if restaurantId.Some? then restaurantId.value else 1)
                        && r.value.items == Some(ToPreorderItems(entries))
                        && (r.value.specialRequests.None? <==> specialRequests == "")
                        && r.value.deliveryTime == reservationDateTime
  {
    if entries == [] then None
    else
      Some(PreorderRequest(
             reservationId,
             Some(if restaurantId.Some? then restaurantId.value else 1),
             None,
             Some(ToPreorderItems(entries)),
             if specialRequests == "" then None else Some(specialRequests),
             reservationDateTime))
  }

  /** The order lines the Cook service makes of the cart add up to the total
      the page shows. */
  lemma {:induction false} PreorderLinesTotal(entries: seq<CartEntry>)
    ensures ItemsTotal(PreorderItems(ToPreorderItems(entries))) == CartTotal(entries)
    decreases |entries|
  {
    if entries != [] {
      var init := entries[..|entries| - 1];
      var items := PreorderItems(ToPreorderItems(entries));
      assert items[..|items| - 1] == PreorderItems(ToPreorderItems(init));
      PreorderLinesTotal(init);
    }
  }

  /** The preorder the Cook service stores from a submitted cart is a
      pending preorder on table "TBD" whose price is the cart's total, with
      one order line per cart line. */
  lemma {:induction false} SubmittedPreorder(entries: seq<CartEntry>, specialRequests: string, reservationId: Option<int>,
                          restaurantId: Option<int>, reservationDateTime: Option<int>, id: int, now: int)
    requires entries != []
    ensures var o := PreorderOrder(PreorderPayload(entries, specialRequests, reservationId, restaurantId, reservationDateTime).value, id, now);
            o.totalPrice == CartTotal(entries) && o.tableNumber == Some("TBD") && o.isPreorder
            && o.status == Some("PENDING") && o.reservationId == reservationId && |o.items| == |entries|
  {
    PreorderLinesTotal(entries);
  }

  // ---------------------------------------------------------------------------
  // The page's cart
  // ---------------------------------------------------------------------------

  /** The page-wide `cart` array. */
  class ShoppingCart {
    var entries: seq<CartEntry>

    ghost predicate Valid()
      reads this
    {
      WellFormed(entries)
    }

    constructor ()
      ensures Valid() && entries == []
    {
      entries := [];
    }

    method IncreaseQuantity(menuItemId: int, name: string, unitPrice: int)
      requires Valid()
      modifies this
      ensures Valid()
      ensures entries == Increased(old(entries), menuItemId, name, unitPrice)
    {
      IncreaseEffect(entries, menuItemId, name, unitPrice);
      var i := FindEntry(entries, menuItemId);
      if i >= 0 {
        entries := entries[i := entries[i].(quantity := entries[i].quantity + 1)];
      } else {
        entries := entries + [CartEntry(menuItemId, name, 1, unitPrice)];
      }
    }

    method DecreaseQuantity(menuItemId: int)
      requires Valid()
      modifies this
      ensures Valid()
      ensures entries == Decreased(old(entries), menuItemId)
    {
      DecreaseEffect(entries, menuItemId);
      var i := FindEntry(entries, menuItemId);
      if i > -1 {
        if entries[i].quantity > 1 {
          entries := entries[i := entries[i].(quantity := entries[i].quantity - 1)];
        } else {
          entries := entries[..i] + entries[i + 1..];
        }
      }
    }

    method RemoveFromCart(menuItemId: int)
      requires Valid()
      modifies this
      ensures Valid()
      ensures entries == Removed(old(entries), menuItemId)
    {
      RemoveEffect(entries, menuItemId);
      var i := FindEntry(entries, menuItemId);
      if i > -1 {
        entries := entries[..i] + entries[i + 1..];
      }
    }
  }
}
