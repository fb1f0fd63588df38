/** The critical sections of the pide shop server in their imperative form, in any order. */
module PideShop {
  import opened OrderTable
  import OrderTableSafety

  class Server {
    const orders: array<Order>
    var orderCount: nat
    var deliveredCount: nat
    const cooks: array<Cook>
    const couriers: array<Courier>
    var received: nat            // history: numbers the orders
    ghost var finished: nat
    ghost var cooked: seq<nat>
    ghost var log: seq<nat>

    ghost function View(): Shop
      reads this, orders, cooks, couriers
    {
      Shop(orders[..], orderCount, deliveredCount, cooks[..], couriers[..], received, finished, cooked, log)
    }

    ghost predicate Valid()
      reads this, orders, cooks, couriers
    {
      ShopInv(View())
    }

    /** Empty pools started, no client yet. */
    constructor (cookPoolSize: nat, deliveryPoolSize: nat)
      ensures Init(View()) && Valid()
      ensures fresh(orders) && fresh(cooks) && fresh(couriers)
    {
      orders := new Order[MAX_ORDERS](_ => NewOrder(0, 0));
      cooks := new Cook[cookPoolSize](_ => Idle);
      couriers := new Courier[deliveryPoolSize](_ => Courier(false, [], 0));
      orderCount, deliveredCount := 0, 0;
      received, finished, cooked, log := 0, 0, [], [];
      new;
      OrderTableSafety.RunKeeps([View()], [], 0);
    }

    /** `handle_client`, between lock and unlock. */
    method HandleClient()
      requires Valid()
      modifies this, orders
      ensures Valid() && View() == Next(old(View()), Receive)
    {
      ghost var before := View();
      if orderCount < MAX_ORDERS {
        orders[orderCount] := NewOrder(orderCount, received);
        orderCount := orderCount + 1;
        received := received + 1;
      }
      OrderTableSafety.StepKeeps(before, Receive);
    }

    /** The scan of `cook_function`; the order found is prepared outside the lock. */
    method CookScan(c: nat)
      requires Valid() && Enabled(View(), CookTakes(c))
      modifies orders, cooks
      ensures Valid() && View() == Next(old(View()), CookTakes(c))
    {
      ghost var before := View();
      OrderTableSafety.StepKeeps(before, CookTakes(c));
      var i := 0;
      while i < orderCount
        invariant 0 <= i <= orderCount && View() == before
        invariant FirstUntouched(before.orders, 0, orderCount) == FirstUntouched(before.orders, i, orderCount)
      {
        var o := orders[i];
        if !o.prepared && !o.inOven && !o.ready && !o.delivered && !o.cancelled {
          orders[i] := o.(prepared := true);
          cooks[c] := Holding(i);
          return;
        }
        i := i + 1;
      }
    }

    /** The second critical section of a cook. */
    method CookFinish(c: nat)
      requires Valid() && Enabled(View(), CookDone(c))
      modifies this, orders, cooks
      ensures Valid() && InTable(old(View()), CookDone(c)) && View() == Next(old(View()), CookDone(c))
    {
      ghost var before := View();
      OrderTableSafety.StepKeeps(before, CookDone(c));
      var i := cooks[c].i;
      cooked := cooked + [orders[i].serial];
      orders[i] := orders[i].(ready := true, inOven := false);
      cooks[c] := Idle;
    }

    /** The loop of `delivery_function`: assign available orders until the hands are full. */
    method AssignOrders(d: nat) returns (deliveries: seq<nat>)
      requires orderCount <= orders.Length
      modifies orders
      ensures Pick(old(orders[..]), CAPACITY, d, 0, orderCount) == Picked(orders[..], deliveries)
    {
      ghost var before := orders[..];
      deliveries := [];
      var i := 0;
      while i < orderCount
        invariant 0 <= i <= orderCount && |deliveries| < CAPACITY
        invariant Pick(before, CAPACITY, d, 0, orderCount)
               == var rest := Pick(orders[..], CAPACITY - |deliveries|, d, i, orderCount);
                  Picked(rest.orders, deliveries + rest.carried)
      {
        var o := orders[i];
        if Available(o) {
          ghost var rows := orders[..];
          orders[i] := o.(courier := d);
          assert orders[..] == rows[i := o.(courier := d)];
          deliveries := deliveries + [o.id];
          if |deliveries| == CAPACITY { break; }
        }
        i := i + 1;
      }
    }

    /** The scan of `delivery_function`. */
    method DeliveryScan(d: nat)
      requires Valid() && Enabled(View(), CourierPicks(d))
      modifies orders, couriers
      ensures Valid() && View() == Next(old(View()), CourierPicks(d))
    {
      hide ShopInv, Pick;
      ghost var before := View();
      OrderTableSafety.StepKeeps(before, CourierPicks(d));
      var deliveries := AssignOrders(d);
      if |deliveries| > 0 {
        couriers[d] := Courier(true, deliveries, 0);
      } else {
        SamePick(before.orders, CAPACITY, d, 0, before.orderCount);
      }
    }

    /** `deliver_order` and the reset in `check_and_notify_all_delivered`. */
    method DeliverOrder(d: nat)
      requires Valid() && Enabled(View(), Deliver(d))
      modifies this, orders, couriers
      ensures Valid() && InTable(old(View()), Deliver(d)) && View() == Next(old(View()), Deliver(d))
    {
      hide SlotsInv, CooksInv, CountsInv, LogsInv;
      ghost var before := View();
      OrderTableSafety.StepKeeps(before, Deliver(d));
      var me := couriers[d];
      var i := me.carried[me.next];
      log := log + [orders[i].serial];
      orders[i] := orders[i].(delivered := true);
      couriers[d] := me.(next := me.next + 1);
      deliveredCount := deliveredCount + 1;
      if deliveredCount == orderCount {
        finished := finished + orderCount;
        deliveredCount := 0;
        orderCount := 0;
      }
    }

    /** The courier is back and free again. */
    method FinishRound(d: nat)
      requires Valid() && Enabled(View(), CourierReturns(d))
      modifies couriers
      ensures Valid() && View() == Next(old(View()), CourierReturns(d))
    {
      ghost var before := View();
      OrderTableSafety.StepKeeps(before, CourierReturns(d));
      couriers[d] := Courier(false, [], 0);
    }

    predicate CanHappen(e: Event)
      reads this, orders, cooks, couriers
      ensures CanHappen(e) <==> Enabled(View(), e)
    {
      match e
      case Receive => true
      case CookTakes(c) => c < cooks.Length && cooks[c].Idle?
      case CookDone(c) => c < cooks.Length && cooks[c].Holding?
      case CourierPicks(d) => d < couriers.Length && !couriers[d].busy
      case Deliver(d) => d < couriers.Length && couriers[d].busy && couriers[d].next < |couriers[d].carried|
      case CourierReturns(d) =>
        d < couriers.Length && couriers[d].busy && couriers[d].next == |couriers[d].carried|
    }

    method Handle(e: Event)
      requires Valid() && Enabled(View(), e)
      modifies this, orders, cooks, couriers
      ensures Valid() && Step(old(View()), e, View())
    {
      OrderTableSafety.StepKeeps(View(), e);
      hide ShopInv, Next;
      match e {
        case Receive => HandleClient();
        case CookTakes(c) => CookScan(c);
        case CookDone(c) => CookFinish(c);
        case CourierPicks(d) => DeliveryScan(d);
        case Deliver(d) => DeliverOrder(d);
        case CourierReturns(d) => FinishRound(d);
      }
    }

    /** An event that can happen now does. */
    method Offer(e: Event) returns (happens: bool)
      requires Valid()
      modifies this, orders, cooks, couriers
      ensures Valid() && happens == Enabled(old(View()), e)
      ensures if happens then Step(old(View()), e, View()) else View() == old(View())
    {
      happens := CanHappen(e);
      if happens { Handle(e); }
    }

    /** Clients and threads in any order: those of `events` that can happen make a run of the order table. */
    method Serve(events: seq<Event>) returns (ghost shops: seq<Shop>)
      requires Init(View())
      modifies this, orders, cooks, couriers
      ensures Run(shops, Happening(old(View()), events))
      ensures shops[0] == old(View()) && shops[|shops| - 1] == View()
    {
      shops := [View()];
      ghost var happened: seq<Event> := [];
      OrderTableSafety.RunKeeps(shops, [], 0);
      ghost var start := View();
      assert happened == Happening(start, events[..0]) && start == AfterAll(start, events[..0]);
      hide *;
      var i := 0;
      while i < |events|
        invariant 0 <= i <= |events| && Valid()
        invariant Run(shops, happened) && |shops| == |happened| + 1
        invariant shops[0] == start && shops[|happened|] == View()
        invariant happened == Happening(start, events[..i]) && View() == AfterAll(start, events[..i])
      {
        var happens := Offer(events[i]);
        OneMore(start, events, i, View());
        if happens {
          RunGrows(shops, happened, events[i], View());
          shops, happened := shops + [View()], happened + [events[i]];
        }
        i := i + 1;
      }
      assert events[..i] == events;
    }
  }

  /** The shop after the events of a list, those left out that cannot happen when their turn comes. */
  ghost function AfterAll(s: Shop, events: seq<Event>): Shop
    decreases |events|
  {
    if events == [] then s
    else
      var before, e := AfterAll(s, events[..|events| - 1]), events[|events| - 1];
      if Enabled(before, e) && InTable(before, e) then Next(before, e) else before
  }

  ghost function Happening(s: Shop, events: seq<Event>): seq<Event>
    decreases |events|
  {
    if events == [] then []
    else
      var front, e := events[..|events| - 1], events[|events| - 1];
      var before := AfterAll(s, front);
      Happening(s, front) + if Enabled(before, e) && InTable(before, e) then [e] else []
  }

  lemma OneMore(s: Shop, events: seq<Event>, i: nat, now: Shop)
    requires i < |events|
    requires var before, e := AfterAll(s, events[..i]), events[i];
             if Enabled(before, e) then Step(before, e, now) else now == before
    ensures AfterAll(s, events[..i + 1]) == now
    ensures Happening(s, events[..i + 1])
            == Happening(s, events[..i]) + if Enabled(AfterAll(s, events[..i]), events[i]) then [events[i]] else []
  {
    var upTo := events[..i + 1];
    assert upTo[..|upTo| - 1] == events[..i];
  }

  lemma RunGrows(shops: seq<Shop>, events: seq<Event>, e: Event, next: Shop)
    requires Run(shops, events) && |shops| == |events| + 1 && Step(shops[|events|], e, next)
    ensures Run(shops + [next], events + [e])
  {
    hide Step, Init;
    var shops', events' := shops + [next], events + [e];
    forall k | 0 <= k < |events'| ensures Step(shops'[k], events'[k], shops'[k + 1]) {
      if k < |events| { assert Step(shops[k], events[k], shops[k + 1]); }
    }
  }

  /** A scan that picks nothing changes nothing. */
  lemma {:induction false} SamePick(orders: seq<Order>, room: nat, d: nat, i: nat, n: nat)
    requires i <= n <= |orders|
    ensures Pick(orders, room, d, i, n).carried == [] ==> Pick(orders, room, d, i, n).orders == orders
    decreases n - i
  {
    if i < n && room > 0 && !Available(orders[i]) { SamePick(orders, room, d, i + 1, n); }
  }
}
