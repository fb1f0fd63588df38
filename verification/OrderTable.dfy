/** The shared order table of the pide shop server: receivers, cooks and couriers as atomic steps. */
module OrderTable {

  const MAX_ORDERS: nat := 100
  const CAPACITY: nat := 3

  /** `serial` numbers the orders over all sessions; nothing in the program reads it. */
  datatype Order = Order(id: nat, prepared: bool, inOven: bool, ready: bool, delivered: bool, cancelled: bool,
                         courier: int, serial: nat)

  /** A cook between its two critical sections holds the index of its order. */
  datatype Cook = Idle | Holding(i: nat)

  /** `carried` is deliveries[0..delivery_count]; `next` the loop index of the delivery round. */
  datatype Courier = Courier(busy: bool, carried: seq<nat>, next: nat)

  datatype Shop = Shop(orders: seq<Order>, orderCount: nat, deliveredCount: nat,
                       cooks: seq<Cook>, couriers: seq<Courier>,
                       received: nat, finished: nat, cooked: seq<nat>, log: seq<nat>)

  datatype Event =
    | Receive
    | CookTakes(c: nat)
    | CookDone(c: nat)
    | CourierPicks(d: nat)
    | Deliver(d: nat)
    | CourierReturns(d: nat)

  // ---- steps ----

  /** `handle_client`: a new order in the next slot, or none if the table is full. */
  function NewOrder(id: nat, serial: nat): Order {
    Order(id, false, false, false, false, false, -1, serial)
  }

  function ReceiveNext(s: Shop): Shop
    requires s.orderCount < |s.orders|
  {
    s.(orders := s.orders[s.orderCount := NewOrder(s.orderCount, s.received)],
       orderCount := s.orderCount + 1, received := s.received + 1)
  }

  predicate Untouched(o: Order) { !o.prepared && !o.inOven && !o.ready && !o.delivered && !o.cancelled }

  /** First slot from `i` on that no cook has taken, or the order count. */
  function FirstUntouched(orders: seq<Order>, i: nat, n: nat): (k: nat)
    requires i <= n <= |orders|
    ensures i <= k <= n
    ensures k < n ==> Untouched(orders[k])
    ensures forall j :: i <= j < k ==> !Untouched(orders[j])
    decreases n - i
  {
    if i == n || Untouched(orders[i]) then i else FirstUntouched(orders, i + 1, n)
  }

  function CookTakesNext(s: Shop, c: nat): Shop
    requires c < |s.cooks| && s.orderCount <= |s.orders|
  {
    var i := FirstUntouched(s.orders, 0, s.orderCount);
    if i == s.orderCount then s
    else s.(orders := s.orders[i := s.orders[i].(prepared := true)], cooks := s.cooks[c := Holding(i)])
  }

  function CookDoneNext(s: Shop, c: nat): Shop
    requires c < |s.cooks| && s.cooks[c].Holding? && s.cooks[c].i < |s.orders|
  {
    var i := s.cooks[c].i;
    s.(orders := s.orders[i := s.orders[i].(ready := true, inOven := false)], cooks := s.cooks[c := Idle],
       cooked := s.cooked + [s.orders[i].serial])
  }

  predicate Available(o: Order) { o.ready && !o.delivered && !o.cancelled && o.courier == -1 }

  datatype Picked = Picked(orders: seq<Order>, carried: seq<nat>)

  /** The scan of an idle courier from slot `i` on, with room for so many orders. */
  function Pick(orders: seq<Order>, room: nat, d: nat, i: nat, n: nat): Picked
    requires i <= n <= |orders|
    decreases n - i
  {
    if i == n || room == 0 then Picked(orders, [])
    else if Available(orders[i]) then
      var rest := Pick(orders[i := orders[i].(courier := d)], room - 1, d, i + 1, n);
      Picked(rest.orders, [orders[i].id] + rest.carried)
    else Pick(orders, room, d, i + 1, n)
  }

  function CourierPicksNext(s: Shop, d: nat): Shop
    requires d < |s.couriers| && s.orderCount <= |s.orders|
  {
    var p := Pick(s.orders, CAPACITY, d, 0, s.orderCount);
    if p.carried == [] then s
    else s.(orders := p.orders, couriers := s.couriers[d := Courier(true, p.carried, 0)])
  }

  /** `deliver_order` with the reset at the end of a session. */
  function DeliverNext(s: Shop, d: nat): Shop
    requires d < |s.couriers| && s.couriers[d].next < |s.couriers[d].carried|
    requires s.couriers[d].carried[s.couriers[d].next] < |s.orders|
  {
    var me := s.couriers[d];
    var i := me.carried[me.next];
    var s' := s.(orders := s.orders[i := s.orders[i].(delivered := true)], deliveredCount := s.deliveredCount + 1,
                 couriers := s.couriers[d := me.(next := me.next + 1)], log := s.log + [s.orders[i].serial]);
    if s'.deliveredCount == s'.orderCount
    then s'.(deliveredCount := 0, orderCount := 0, finished := s.finished + s.orderCount)
    else s'
  }

  function CourierReturnsNext(s: Shop, d: nat): Shop
    requires d < |s.couriers|
  {
    s.(couriers := s.couriers[d := Courier(false, [], 0)])
  }

  predicate Enabled(s: Shop, e: Event) {
    match e
    case Receive => true
    case CookTakes(c) => c < |s.cooks| && s.cooks[c].Idle?
    case CookDone(c) => c < |s.cooks| && s.cooks[c].Holding?
    case CourierPicks(d) => d < |s.couriers| && !s.couriers[d].busy
    case Deliver(d) => d < |s.couriers| && s.couriers[d].busy && s.couriers[d].next < |s.couriers[d].carried|
    case CourierReturns(d) => d < |s.couriers| && s.couriers[d].busy && s.couriers[d].next == |s.couriers[d].carried|
  }

  /** Every index used lies in the table. */
  predicate InTable(s: Shop, e: Event) {
    && |s.orders| == MAX_ORDERS && s.orderCount <= MAX_ORDERS
    && (e.CookDone? && e.c < |s.cooks| && s.cooks[e.c].Holding? ==> s.cooks[e.c].i < MAX_ORDERS)
    && (e.Deliver? && e.d < |s.couriers| && s.couriers[e.d].next < |s.couriers[e.d].carried| ==>
          s.couriers[e.d].carried[s.couriers[e.d].next] < MAX_ORDERS)
  }

  function Next(s: Shop, e: Event): Shop
    requires Enabled(s, e) && InTable(s, e)
  {
    match e
    case Receive => if s.orderCount < MAX_ORDERS then ReceiveNext(s) else s
    case CookTakes(c) => CookTakesNext(s, c)
    case CookDone(c) => CookDoneNext(s, c)
    case CourierPicks(d) => CourierPicksNext(s, d)
    case Deliver(d) => DeliverNext(s, d)
    case CourierReturns(d) => CourierReturnsNext(s, d)
  }

  ghost predicate Step(s: Shop, e: Event, s': Shop) {
    Enabled(s, e) && InTable(s, e) && s' == Next(s, e)
  }

  /** The server before the first client, with any pools of cooks and couriers. */
  ghost predicate Init(s: Shop) {
    && |s.orders| == MAX_ORDERS && s.orderCount == 0 && s.deliveredCount == 0
    && (forall c :: 0 <= c < |s.cooks| ==> s.cooks[c] == Idle)
    && (forall d :: 0 <= d < |s.couriers| ==> s.couriers[d] == Courier(false, [], 0))
    && s.received == 0 && s.finished == 0 && s.cooked == [] && s.log == []
  }

  ghost predicate Run(shops: seq<Shop>, events: seq<Event>) {
    && |shops| == |events| + 1 && Init(shops[0])
    && forall k :: 0 <= k < |events| ==> Step(shops[k], events[k], shops[k + 1])
  }

  // ---- the invariant ----

  function CountDelivered(orders: seq<Order>, n: nat): nat
    requires n <= |orders|
  {
    if n == 0 then 0 else CountDelivered(orders, n - 1) + if orders[n - 1].delivered then 1 else 0
  }

  /** The flags of slot `i` in use, in a session that follows `finished` delivered orders. */
  predicate SlotOk(o: Order, i: nat, finished: nat) {
    && o.id == i && o.serial == finished + i && !o.cancelled && !o.inOven
    && (o.ready ==> o.prepared) && (o.courier != -1 ==> o.ready) && (o.delivered ==> o.courier != -1)
  }

  ghost predicate Sized(s: Shop) { |s.orders| == MAX_ORDERS && s.orderCount <= MAX_ORDERS }

  ghost predicate SlotsInv(s: Shop)
    requires Sized(s)
  {
    forall i :: 0 <= i < s.orderCount ==> SlotOk(s.orders[i], i, s.finished)
  }

  /** A cook holds a slot in use that is taken and not yet ready, and no other cook holds it. */
  ghost predicate CooksInv(s: Shop)
    requires Sized(s)
  {
    && (forall c :: 0 <= c < |s.cooks| && s.cooks[c].Holding? ==>
          s.cooks[c].i < s.orderCount && s.orders[s.cooks[c].i].prepared && !s.orders[s.cooks[c].i].ready)
    && (forall b, c :: 0 <= b < c < |s.cooks| && s.cooks[b].Holding? && s.cooks[c].Holding? ==>
          s.cooks[b].i != s.cooks[c].i)
  }

  /** What courier `d` still has to deliver is assigned to it and undelivered. */
  ghost predicate CourierOk(me: Courier, d: nat, orders: seq<Order>, n: nat)
    requires n <= |orders|
  {
    && |me.carried| <= CAPACITY && me.next <= |me.carried| && (!me.busy ==> me.carried == [])
    && (forall k :: me.next <= k < |me.carried| ==>
          me.carried[k] < n && orders[me.carried[k]].courier == d && !orders[me.carried[k]].delivered)
    && (forall j, k :: me.next <= j < k < |me.carried| ==> me.carried[j] != me.carried[k])
  }

  ghost predicate CouriersInv(s: Shop)
    requires Sized(s)
  {
    forall d :: 0 <= d < |s.couriers| ==> CourierOk(s.couriers[d], d, s.orders, s.orderCount)
  }

  ghost predicate CountsInv(s: Shop)
    requires Sized(s)
  {
    && s.deliveredCount == CountDelivered(s.orders, s.orderCount)
    && (s.deliveredCount == s.orderCount ==> s.orderCount == 0)
    && s.received == s.finished + s.orderCount
  }

  ghost predicate NoRepeat(xs: seq<nat>) { forall i, j :: 0 <= i < j < |xs| ==> xs[i] != xs[j] }

  /** The logs by serial number: `log` and `cooked` have no repetition and list what the flags say. */
  ghost predicate LogsInv(s: Shop)
    requires Sized(s)
  {
    && NoRepeat(s.log) && NoRepeat(s.cooked)
    && (forall n: nat :: n in s.log <==>
          n < s.finished || (n < s.finished + s.orderCount && s.orders[n - s.finished].delivered))
    && (forall n: nat :: n in s.cooked <==>
          n < s.finished || (n < s.finished + s.orderCount && s.orders[n - s.finished].ready))
    && |s.log| == s.finished + s.deliveredCount
  }

  ghost predicate ShopInv(s: Shop) {
    Sized(s) && SlotsInv(s) && CooksInv(s) && CouriersInv(s) && CountsInv(s) && LogsInv(s)
  }
}
