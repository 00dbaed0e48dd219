/** The order management screen (src/views/admin/orders/orders.tsx): a list
    of orders whose `status` moves from "Pending" to "Dispatched",
    "Available for Pickup" or "Delivery via <method>", a status filter, the
    badge colour of each status, and the two dialogs of the screen. */
module Orders {
  import opened Common
  import Text

  datatype Item = Item(name: string, quantity: int)

  /** One order row. `status` is free text: the screen compares it with
      string literals and builds "Delivery via ..." at run time. */
  datatype Order = Order(
    id: int,
    customer: string,
    email: string,
    kind: string,
    dispatchMethod: string,
    items: seq<Item>,
    status: string,
    date: string,
    total: string)

  /** The component's state: the order list, the order opened with View (a
      snapshot taken when View was clicked), the filter, the two dialog
      flags and the delivery method chosen in the radio group. */
  datatype OrdersPage = OrdersPage(
    orders: seq<Order>,
    selected: Option<Order>,
    filter: string,
    detailsOpen: bool,
    deliveryOpen: bool,
    deliveryMethod: string)

  const Pending := "Pending"
  const Dispatched := "Dispatched"
  const AvailableForPickup := "Available for Pickup"
  const All := "All"
  const Wolt := "Wolt"
  const InHouseTeam := "In-House Team"
  const SelfPickup := "Self Pickup"
  const Delivery := "Delivery"

  /** The status an assignment gives: "Delivery via " followed by the
      chosen method. */
  function DeliveryStatus(via: string): (status: string)
    ensures |status| == 13 + |via| && status[..13] == "Delivery via " && status[13..] == via
    ensures status != Pending && status != Dispatched && status != AvailableForPickup
  {
    var status := "Delivery via " + via;
    assert status[0] == 'D' && AvailableForPickup[0] == 'A';
    assert status[..8] == "Delivery";
    status
  }

  /** The method an assignment recorded is read back from the status. */
  lemma DeliveryStatusInjective(a: string, b: string)
    ensures DeliveryStatus(a) == DeliveryStatus(b) <==> a == b
  {
    if DeliveryStatus(a) == DeliveryStatus(b) {
      assert a == DeliveryStatus(a)[13..];
    }
  }

  /** Seed order `i` (0-based): even positions are delivered packages, odd
      ones self-pickup products, and every third one starts "Dispatched".
      Today's date and the random total are parameters. */
  function SeedOrder(i: nat, date: string, total: string): (o: Order)
    ensures o.id == i + 1
    ensures o.dispatchMethod == (if i % 2 == 0 then Delivery else SelfPickup)
    ensures o.status == (if i % 3 == 0 then Dispatched else Pending)
  {
    var n := Text.NatToString(i + 1);
    Order(i + 1, "Customer " + n, "customer" + n + "@example.com",
          if i % 2 == 0 then "Package" else "Product",
          if i % 2 == 0 then Delivery else SelfPickup,
          [Item("Item " + n + "-A", 1), Item("Item " + n + "-B", 2)],
          if i % 3 == 0 then Dispatched else Pending,
          date, total)
  }

  /** The ten seed orders, with ids 1 to 10. */
  function SeedOrders(date: string, totals: seq<string>): (orders: seq<Order>)
    requires |totals| == 10
    ensures |orders| == 10
    ensures forall i :: 0 <= i < 10 ==> orders[i] == SeedOrder(i, date, totals[i])
  {
    seq(10, i requires 0 <= i < 10 => SeedOrder(i, date, totals[i]))
  }

  /** In the seed list "Assign Delivery" is offered exactly for ids 3, 5
      and 9, "Make Available for Pickup" exactly for ids 2, 6 and 8, and
      the orders with ids 1, 4, 7 and 10 offer neither. */
  lemma {:induction false} SeedActions(date: string, totals: seq<string>, i: int)
    requires |totals| == 10 && 0 <= i < 10
    ensures var o := SeedOrders(date, totals)[i];
            && (OffersDelivery(o) <==> o.id in {3, 5, 9})
            && (OffersPickup(o) <==> o.id in {2, 6, 8})
  {
    var o := SeedOrders(date, totals)[i];
    assert o == SeedOrder(i, date, totals[i]);
  }

  /** The page as it is first rendered. */
  function InitialPage(orders: seq<Order>): (p: OrdersPage)
    ensures p.orders == orders && p.filter == All && p.deliveryMethod == Wolt
    ensures p.selected == None && !p.detailsOpen && !p.deliveryOpen
  {
    OrdersPage(orders, None, All, false, false, Wolt)
  }

  /** The `map` shared by the three status actions: the orders whose id is
      `id` get `status`; nothing else changes, neither the other orders nor
      the other fields of a matching order, nor the length or order of the
      list. */
  function SetStatus(orders: seq<Order>, id: int, status: string): (r: seq<Order>)
    ensures |r| == |orders|
    ensures forall i :: 0 <= i < |orders| && orders[i].id != id ==> r[i] == orders[i]
    ensures forall i :: 0 <= i < |orders| && orders[i].id == id ==>
              r[i].status == status && r[i] == orders[i].(status := r[i].status)
    decreases |orders|
  {
    if |orders| == 0 then []
    else
      var head := if orders[0].id == id then orders[0].(status := status) else orders[0];
      [head] + SetStatus(orders[1..], id, status)
  }

  /** Rewriting the same status of the same id a second time changes
      nothing: each status action is idempotent. */
  lemma {:induction false} SetStatusIdempotent(orders: seq<Order>, id: int, status: string)
    ensures SetStatus(SetStatus(orders, id, status), id, status) == SetStatus(orders, id, status)
    decreases |orders|
  {
    if |orders| > 0 {
      SetStatusIdempotent(orders[1..], id, status);
      assert SetStatus(orders, id, status)[1..] == SetStatus(orders[1..], id, status);
    }
  }

  /** An id no order carries leaves the list as it is. */
  lemma {:induction false} SetStatusAbsentId(orders: seq<Order>, id: int, status: string)
    requires forall i :: 0 <= i < |orders| ==> orders[i].id != id
    ensures SetStatus(orders, id, status) == orders
    decreases |orders|
  {
    if |orders| > 0 {
      SetStatusAbsentId(orders[1..], id, status);
      assert [orders[0]] + orders[1..] == orders;
    }
  }

  /** View: remembers the clicked order and opens the details dialog. */
  function ViewOrder(p: OrdersPage, order: Order): (r: OrdersPage)
    ensures r.selected == Some(order) && r.detailsOpen
    ensures r.orders == p.orders && r.filter == p.filter
    ensures r.deliveryOpen == p.deliveryOpen && r.deliveryMethod == p.deliveryMethod
  {
    p.(selected := Some(order), detailsOpen := true)
  }

  /** `handleDispatchOrder`: the order with that id becomes "Dispatched" and
      the details dialog closes. */
  function DispatchOrder(p: OrdersPage, id: int): (r: OrdersPage)
    ensures r.orders == SetStatus(p.orders, id, Dispatched)
    ensures !r.detailsOpen
    ensures r.selected == p.selected && r.filter == p.filter
    ensures r.deliveryOpen == p.deliveryOpen && r.deliveryMethod == p.deliveryMethod
  {
    p.(orders := SetStatus(p.orders, id, Dispatched), detailsOpen := false)
  }

  /** `handleMakeAvailableForPickup`: the order with that id becomes
      "Available for Pickup" and the details dialog closes. */
  function MakeAvailableForPickup(p: OrdersPage, id: int): (r: OrdersPage)
    ensures r.orders == SetStatus(p.orders, id, AvailableForPickup)
    ensures !r.detailsOpen
    ensures r.selected == p.selected && r.filter == p.filter
    ensures r.deliveryOpen == p.deliveryOpen && r.deliveryMethod == p.deliveryMethod
  {
    p.(orders := SetStatus(p.orders, id, AvailableForPickup), detailsOpen := false)
  }

  /** "Assign Delivery" in the details dialog opens the delivery dialog. */
  function OpenDeliveryDialog(p: OrdersPage): (r: OrdersPage)
    ensures r.deliveryOpen && r.orders == p.orders && r.detailsOpen == p.detailsOpen
    ensures r.selected == p.selected && r.deliveryMethod == p.deliveryMethod
    ensures r.filter == p.filter
  {
    p.(deliveryOpen := true)
  }

  /** The radio group of the delivery dialog: it offers exactly "Wolt" and
      "In-House Team". */
  predicate IsDeliveryMethod(m: string) {
    m == Wolt || m == InHouseTeam
  }

  /** Picking a delivery method in the radio group. */
  function ChooseDeliveryMethod(p: OrdersPage, m: string): (r: OrdersPage)
    requires IsDeliveryMethod(m)
    ensures r.deliveryMethod == m && IsDeliveryMethod(r.deliveryMethod)
    ensures r.orders == p.orders && r.selected == p.selected
    ensures r.detailsOpen == p.detailsOpen && r.deliveryOpen == p.deliveryOpen
    ensures r.filter == p.filter
  {
    p.(deliveryMethod := m)
  }

  /** `handleAssignDelivery`: the order opened with View gets
      "Delivery via <method>"; only the delivery dialog closes, the details
      dialog keeps its state. The delivery dialog is rendered only while an
      order is selected, so an order is always selected here. */
  function AssignDelivery(p: OrdersPage): (r: OrdersPage)
    requires p.selected.Some?
    ensures r.orders == SetStatus(p.orders, p.selected.value.id, DeliveryStatus(p.deliveryMethod))
    ensures !r.deliveryOpen && r.detailsOpen == p.detailsOpen
    ensures r.selected == p.selected && r.deliveryMethod == p.deliveryMethod
    ensures r.filter == p.filter
  {
    p.(orders := SetStatus(p.orders, p.selected.value.id, DeliveryStatus(p.deliveryMethod)),
       deliveryOpen := false)
  }

  /** Closing the details dialog (its close button, its footer button or a
      click outside it). */
  function CloseDetails(p: OrdersPage): (r: OrdersPage)
    ensures !r.detailsOpen && r.orders == p.orders && r.selected == p.selected
    ensures r.filter == p.filter && r.deliveryOpen == p.deliveryOpen
    ensures r.deliveryMethod == p.deliveryMethod
  {
    p.(detailsOpen := false)
  }

  /** Closing the delivery dialog without assigning. */
  function CloseDeliveryDialog(p: OrdersPage): (r: OrdersPage)
    ensures !r.deliveryOpen && r.orders == p.orders && r.deliveryMethod == p.deliveryMethod
    ensures r.selected == p.selected && r.detailsOpen == p.detailsOpen && r.filter == p.filter
  {
    p.(deliveryOpen := false)
  }

  /** Choosing an entry of the filter drop-down. */
  function SetFilter(p: OrdersPage, filter: string): (r: OrdersPage)
    ensures r.filter == filter && r.orders == p.orders
    ensures r.selected == p.selected && r.detailsOpen == p.detailsOpen
    ensures r.deliveryOpen == p.deliveryOpen && r.deliveryMethod == p.deliveryMethod
  {
    p.(filter := filter)
  }

  /** `filteredOrders`: "All" shows every order; any other filter shows
      exactly the orders whose status equals it, in list order. */
  function FilteredOrders(orders: seq<Order>, filter: string): (r: seq<Order>)
    ensures filter == All ==> r == orders
    ensures filter != All ==> Subsequence(r, orders)
    ensures filter != All ==> forall i :: 0 <= i < |r| ==> r[i].status == filter
    ensures filter != All ==>
              forall o :: multiset(r)[o] == if o.status == filter then multiset(orders)[o] else 0
  {
    if filter == All then orders else Filter(orders, (o: Order) => o.status == filter)
  }

  /** "Make Available for Pickup" is offered for a pending self-pickup order. */
  predicate OffersPickup(o: Order) {
    o.dispatchMethod == SelfPickup && o.status == Pending
  }

  /** "Assign Delivery" is offered for a pending delivery order. */
  predicate OffersDelivery(o: Order) {
    o.dispatchMethod == Delivery && o.status == Pending
  }

  /** The two action buttons never appear together, and neither appears
      once the order has left "Pending". */
  lemma ActionButtonsExclusive(o: Order)
    ensures !(OffersPickup(o) && OffersDelivery(o))
    ensures o.status != Pending ==> !OffersPickup(o) && !OffersDelivery(o)
  {
  }

  /** After an action on an order, the order's entry in the list offers no
      action button any more: every action target differs from "Pending".
      Viewing the order again shows this. The details dialog that is still
      open after an assignment is another matter (`StaleDeliveryDialog`). */
  lemma {:induction false} NoActionAfterTransition(p: OrdersPage, i: int)
    requires p.selected.Some? && 0 <= i < |p.orders|
    ensures var o := MakeAvailableForPickup(p, p.orders[i].id).orders[i];
            !OffersPickup(o) && !OffersDelivery(o)
    ensures var o := DispatchOrder(p, p.orders[i].id).orders[i];
            !OffersPickup(o) && !OffersDelivery(o)
    ensures var o := AssignDelivery(p).orders[i];
            o.id == p.selected.value.id ==> !OffersPickup(o) && !OffersDelivery(o)
  {
    assert DeliveryStatus(p.deliveryMethod)[..8] == "Delivery";
  }

  /** Assigning a delivery closes only the delivery dialog and does not
      refresh the snapshot of the viewed order, so the details dialog stays
      open on the old "Pending" status and keeps offering "Assign
      Delivery"; a second assignment then overwrites the first. */
  lemma StaleDeliveryDialog(p: OrdersPage, second: string)
    requires p.selected.Some? && p.detailsOpen && OffersDelivery(p.selected.value)
    requires IsDeliveryMethod(second)
    ensures var q := AssignDelivery(p);
            && q.detailsOpen && q.selected == p.selected
            && OffersDelivery(q.selected.value)
    ensures var q := AssignDelivery(ChooseDeliveryMethod(OpenDeliveryDialog(AssignDelivery(p)), second));
            forall i :: 0 <= i < |q.orders| && q.orders[i].id == p.selected.value.id ==>
              q.orders[i].status == DeliveryStatus(second)
  {
  }

  datatype BadgeColor = Gray | Blue | Orange | Green

  /** The badge colour scheme of a status: gray for "Pending", blue for any
      status mentioning "Delivery", orange for "Available for Pickup", green
      for everything else. */
  function BadgeColorOf(status: string): (c: BadgeColor)
    ensures c == Gray <==> status == Pending
    ensures c == Blue <==> status != Pending && Text.Contains(status, Delivery)
    ensures c == Orange <==> status == AvailableForPickup
    ensures c == Green <==> status != Pending && !Text.Contains(status, Delivery)
                             && status != AvailableForPickup
  {
    Text.NotContainsWithoutFirst(AvailableForPickup, Delivery);
    if status == Pending then Gray
    else if Text.Contains(status, Delivery) then Blue
    else if status == AvailableForPickup then Orange
    else Green
  }

  /** The badge follows each transition: dispatch turns it green, pickup
      orange, and every assigned delivery blue, whatever the method. */
  lemma BadgeAfterTransitions(via: string)
    ensures BadgeColorOf(Dispatched) == Green
    ensures BadgeColorOf(AvailableForPickup) == Orange
    ensures BadgeColorOf(DeliveryStatus(via)) == Blue
  {
    Text.ContainsPrefix(Delivery, " via " + via);
    assert Delivery + (" via " + via) == DeliveryStatus(via);
    forall i | 0 <= i <= |Dispatched| - |Delivery|
      ensures !Text.OccursAt(Dispatched, Delivery, i)
    {
      assert Dispatched[i..i + 8][0] != 'D' || Dispatched[i..i + 8][1] != Delivery[1];
    }
  }

  /** Starting from the initial page, the delivery method stays one of the
      two the radio group offers, whatever the screen does next. */
  lemma DeliveryMethodStaysValid(p: OrdersPage, id: int, o: Order, f: string)
    requires IsDeliveryMethod(p.deliveryMethod)
    ensures IsDeliveryMethod(InitialPage(p.orders).deliveryMethod)
    ensures IsDeliveryMethod(ViewOrder(p, o).deliveryMethod)
    ensures IsDeliveryMethod(DispatchOrder(p, id).deliveryMethod)
    ensures IsDeliveryMethod(MakeAvailableForPickup(p, id).deliveryMethod)
    ensures IsDeliveryMethod(OpenDeliveryDialog(p).deliveryMethod)
    ensures IsDeliveryMethod(CloseDetails(p).deliveryMethod)
    ensures IsDeliveryMethod(CloseDeliveryDialog(p).deliveryMethod)
    ensures IsDeliveryMethod(SetFilter(p, f).deliveryMethod)
    ensures p.selected.Some? ==> IsDeliveryMethod(AssignDelivery(p).deliveryMethod)
  {
  }
}
