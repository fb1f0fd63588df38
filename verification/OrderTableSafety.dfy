/** Safety of the order table over any number of sessions. */
module OrderTableSafety {
  import opened OrderTable

  // ---- counting delivered slots ----

  lemma {:induction false} CountSame(orders: seq<Order>, orders': seq<Order>, n: nat)
    requires n <= |orders| && n <= |orders'|
    requires forall i :: 0 <= i < n ==> orders[i].delivered == orders'[i].delivered
    ensures CountDelivered(orders, n) == CountDelivered(orders', n)
  {
    if n > 0 { CountSame(orders, orders', n - 1); }
  }

  lemma {:induction false} CountOneMore(orders: seq<Order>, i: nat, n: nat)
    requires i < n <= |orders| && !orders[i].delivered
    ensures CountDelivered(orders[i := orders[i].(delivered := true)], n) == CountDelivered(orders, n) + 1
  {
    var orders' := orders[i := orders[i].(delivered := true)];
    if i == n - 1 {
      CountSame(orders, orders', n - 1);
    } else {
      CountOneMore(orders, i, n - 1);
    }
  }

  lemma {:induction false} CountAll(orders: seq<Order>, n: nat)
    requires n <= |orders|
    ensures CountDelivered(orders, n) <= n
    ensures CountDelivered(orders, n) == n ==> forall i :: 0 <= i < n ==> orders[i].delivered
    ensures (forall i :: 0 <= i < n ==> orders[i].delivered) ==> CountDelivered(orders, n) == n
  {
    if n > 0 { CountAll(orders, n - 1); }
  }

  lemma NoRepeatAdd(xs: seq<nat>, x: nat)
    requires NoRepeat(xs) && x !in xs
    ensures NoRepeat(xs + [x])
  {
  }

  // ---- what one scan of a courier picks ----

  /** The picked slots were available and are now assigned to `d`; the others are as before. */
  ghost predicate PickedFrom(orders: seq<Order>, p: Picked, d: nat, i: nat, n: nat)
    requires n <= |orders|
  {
    && |p.orders| == |orders|
    && (forall k :: 0 <= k < |p.carried| ==> i <= p.carried[k] < n && Available(orders[p.carried[k]]))
    && (forall j, k :: 0 <= j < k < |p.carried| ==> p.carried[j] < p.carried[k])
    && (forall j :: 0 <= j < |orders| ==> p.orders[j] == if j in p.carried then orders[j].(courier := d) else orders[j])
  }

  /** One available order in front of what the rest of the scan picks. */
  lemma PickFirst(orders: seq<Order>, rest: Picked, d: nat, i: nat, n: nat)
    requires i < n <= |orders| && Available(orders[i]) && orders[i].id == i
    requires PickedFrom(orders[i := orders[i].(courier := d)], rest, d, i + 1, n)
    ensures PickedFrom(orders, Picked(rest.orders, [i] + rest.carried), d, i, n)
  {
    var orders' := orders[i := orders[i].(courier := d)];
    var p := Picked(rest.orders, [i] + rest.carried);
    forall k | 0 <= k < |p.carried| ensures i <= p.carried[k] < n && Available(orders[p.carried[k]]) {
      if k > 0 {
        assert p.carried[k] == rest.carried[k - 1];
        assert orders'[p.carried[k]] == orders[p.carried[k]];
      }
    }
    assert i !in rest.carried;
  }

  lemma {:induction false} PickMeans(orders: seq<Order>, room: nat, d: nat, i: nat, n: nat)
    requires i <= n <= |orders| && forall j :: i <= j < n ==> orders[j].id == j
    ensures |Pick(orders, room, d, i, n).carried| <= room
    ensures PickedFrom(orders, Pick(orders, room, d, i, n), d, i, n)
    decreases n - i
  {
    if i < n && room > 0 {
      if Available(orders[i]) {
        var orders' := orders[i := orders[i].(courier := d)];
        PickMeans(orders', room - 1, d, i + 1, n);
        hide PickedFrom;
        PickFirst(orders, Pick(orders', room - 1, d, i + 1, n), d, i, n);
      } else {
        PickMeans(orders, room, d, i + 1, n);
        hide Pick;
      }
    }
  }

  /** A courier picks the first available orders: one is left behind only by full hands, and only after those taken. */
  lemma {:induction false} PickIsGreedy(orders: seq<Order>, room: nat, d: nat, i: nat, n: nat, j: nat)
    requires i <= j < n <= |orders| && (forall k :: i <= k < n ==> orders[k].id == k) && Available(orders[j])
    ensures var p := Pick(orders, room, d, i, n);
            j in p.carried || (|p.carried| == room && forall k :: 0 <= k < room ==> p.carried[k] < j)
    decreases n - i
  {
    if room > 0 && i < j {
      if Available(orders[i]) {
        PickIsGreedy(orders[i := orders[i].(courier := d)], room - 1, d, i + 1, n, j);
      } else {
        PickIsGreedy(orders, room, d, i + 1, n, j);
      }
    }
  }

  // ---- every step keeps the invariant ----

  lemma ReceiveKeeps(s: Shop)
    requires ShopInv(s) && s.orderCount < MAX_ORDERS
    ensures ShopInv(ReceiveNext(s))
  {
    CountSame(s.orders, ReceiveNext(s).orders, s.orderCount);
    CountAll(s.orders, s.orderCount);
    SameLogs(s, ReceiveNext(s));
    hide LogsInv;
  }

  lemma CookTakesKeeps(s: Shop, c: nat)
    requires ShopInv(s) && Enabled(s, CookTakes(c))
    ensures ShopInv(CookTakesNext(s, c))
  {
    var i := FirstUntouched(s.orders, 0, s.orderCount);
    var s' := CookTakesNext(s, c);
    if i < s.orderCount {
      CountSame(s.orders, s'.orders, s.orderCount);
      SameLogs(s, s');
      hide LogsInv;
    }
  }

  lemma CookDoneKeeps(s: Shop, c: nat)
    requires ShopInv(s) && Enabled(s, CookDone(c))
    ensures InTable(s, CookDone(c)) && ShopInv(CookDoneNext(s, c))
  {
    var i := s.cooks[c].i;
    var s' := CookDoneNext(s, c);
    CountSame(s.orders, s'.orders, s.orderCount);
    CookedLogs(s, c);
    hide LogsInv;
  }

  lemma CookedLogs(s: Shop, c: nat)
    requires ShopInv(s) && Enabled(s, CookDone(c)) && InTable(s, CookDone(c))
    ensures LogsInv(CookDoneNext(s, c))
  {
    NoRepeatAdd(s.cooked, s.orders[s.cooks[c].i].serial);
  }

  lemma CourierPicksKeeps(s: Shop, d: nat)
    requires ShopInv(s) && Enabled(s, CourierPicks(d))
    ensures ShopInv(CourierPicksNext(s, d))
  {
    PickMeans(s.orders, CAPACITY, d, 0, s.orderCount);
    hide Pick;
    var p := Pick(s.orders, CAPACITY, d, 0, s.orderCount);
    if p.carried != [] {
      PickCouriers(s, p, d);
      PickSlots(s, p, d);
      PickLogs(s, p, d);
      hide PickedFrom, CouriersInv, SlotsInv, CooksInv, LogsInv, CountsInv;
    }
  }

  lemma PickSlots(s: Shop, p: Picked, d: nat)
    requires ShopInv(s) && d < |s.couriers| && PickedFrom(s.orders, p, d, 0, s.orderCount)
    ensures var s' := s.(orders := p.orders, couriers := s.couriers[d := Courier(true, p.carried, 0)]);
            SlotsInv(s') && CooksInv(s')
  {
    assert forall j :: 0 <= j < s.orderCount && j in p.carried ==> Available(s.orders[j]);
  }

  lemma PickLogs(s: Shop, p: Picked, d: nat)
    requires ShopInv(s) && d < |s.couriers| && PickedFrom(s.orders, p, d, 0, s.orderCount)
    ensures var s' := s.(orders := p.orders, couriers := s.couriers[d := Courier(true, p.carried, 0)]);
            CountsInv(s') && LogsInv(s')
  {
    CountSame(s.orders, p.orders, s.orderCount);
    var s' := s.(orders := p.orders, couriers := s.couriers[d := Courier(true, p.carried, 0)]);
    SameLogs(s, s');
  }

  /** The logs stay right as long as nobody's `ready` and `delivered` flags change. */
  lemma SameLogs(s: Shop, s': Shop)
    requires Sized(s) && Sized(s') && LogsInv(s) && s.orderCount <= s'.orderCount
    requires forall j :: 0 <= j < s.orderCount ==>
               s'.orders[j].ready == s.orders[j].ready && s'.orders[j].delivered == s.orders[j].delivered
    requires forall j :: s.orderCount <= j < s'.orderCount ==> !s'.orders[j].ready && !s'.orders[j].delivered
    requires s'.finished == s.finished && s'.deliveredCount == s.deliveredCount
    requires s'.log == s.log && s'.cooked == s.cooked
    ensures LogsInv(s')
  {
  }

  lemma PickCouriers(s: Shop, p: Picked, d: nat)
    requires Sized(s) && CouriersInv(s) && d < |s.couriers| && |p.carried| <= CAPACITY
    requires PickedFrom(s.orders, p, d, 0, s.orderCount)
    ensures CouriersInv(s.(orders := p.orders, couriers := s.couriers[d := Courier(true, p.carried, 0)]))
  {
    forall e, k | 0 <= e < |s.couriers| && e != d && s.couriers[e].next <= k < |s.couriers[e].carried|
      ensures p.orders[s.couriers[e].carried[k]] == s.orders[s.couriers[e].carried[k]]
    {
      assert CourierOk(s.couriers[e], e, s.orders, s.orderCount);
      assert !Available(s.orders[s.couriers[e].carried[k]]);
    }
  }

  lemma CourierReturnsKeeps(s: Shop, d: nat)
    requires ShopInv(s) && Enabled(s, CourierReturns(d))
    ensures ShopInv(CourierReturnsNext(s, d))
  {
  }

  /** A delivery before the session is closed. */
  function Delivered(s: Shop, d: nat): Shop
    requires Enabled(s, Deliver(d)) && InTable(s, Deliver(d))
  {
    var me := s.couriers[d];
    var i := me.carried[me.next];
    s.(orders := s.orders[i := s.orders[i].(delivered := true)], deliveredCount := s.deliveredCount + 1,
       couriers := s.couriers[d := me.(next := me.next + 1)], log := s.log + [s.orders[i].serial])
  }

  lemma DeliverInTable(s: Shop, d: nat)
    requires ShopInv(s) && Enabled(s, Deliver(d))
    ensures InTable(s, Deliver(d))
    ensures var i := s.couriers[d].carried[s.couriers[d].next];
            i < s.orderCount && s.orders[i].courier == d && s.orders[i].ready && !s.orders[i].delivered
  {
    assert CourierOk(s.couriers[d], d, s.orders, s.orderCount);
  }

  /** Everything but the closing condition survives the delivery itself. */
  lemma DeliveredKeeps(s: Shop, d: nat)
    requires ShopInv(s) && Enabled(s, Deliver(d)) && InTable(s, Deliver(d))
    ensures var s' := Delivered(s, d);
            && Sized(s') && SlotsInv(s') && CooksInv(s') && CouriersInv(s') && LogsInv(s')
            && s'.deliveredCount == CountDelivered(s'.orders, s'.orderCount)
            && s'.received == s'.finished + s'.orderCount
  {
    var s' := Delivered(s, d);
    var i := s.couriers[d].carried[s.couriers[d].next];
    DeliverInTable(s, d);
    CountOneMore(s.orders, i, s.orderCount);
    DeliveredLogs(s, d);
  }

  lemma DeliveredLogs(s: Shop, d: nat)
    requires ShopInv(s) && Enabled(s, Deliver(d)) && InTable(s, Deliver(d))
    ensures Sized(Delivered(s, d)) && LogsInv(Delivered(s, d))
  {
    hide CooksInv, CouriersInv, CountsInv;
    var s' := Delivered(s, d);
    var i := s.couriers[d].carried[s.couriers[d].next];
    DeliverInTable(s, d);
    NoRepeatAdd(s.log, s.orders[i].serial);
  }

  /** A courier in the middle of its round has an undelivered slot. */
  lemma OneLeft(me: Courier, d: nat, orders: seq<Order>, n: nat)
    requires n <= |orders| && CourierOk(me, d, orders, n)
    ensures me.next == |me.carried| || exists i :: 0 <= i < n && !orders[i].delivered
  {
    if me.next < |me.carried| { assert !orders[me.carried[me.next]].delivered; }
  }

  /** At the reset every slot is delivered: no cook holds one and no courier still has one to deliver. */
  lemma ResetKeeps(s: Shop)
    requires Sized(s) && SlotsInv(s) && CooksInv(s) && CouriersInv(s) && LogsInv(s)
    requires s.deliveredCount == CountDelivered(s.orders, s.orderCount) == s.orderCount
    requires s.received == s.finished + s.orderCount
    ensures forall c :: 0 <= c < |s.cooks| ==> s.cooks[c].Idle?
    ensures forall d :: 0 <= d < |s.couriers| ==> s.couriers[d].next == |s.couriers[d].carried|
    ensures ShopInv(s.(deliveredCount := 0, orderCount := 0, finished := s.finished + s.orderCount))
  {
    CountAll(s.orders, s.orderCount);
    forall c | 0 <= c < |s.cooks| ensures s.cooks[c].Idle? {
    }
    forall d | 0 <= d < |s.couriers| ensures s.couriers[d].next == |s.couriers[d].carried| {
      OneLeft(s.couriers[d], d, s.orders, s.orderCount);
    }
    var s' := s.(deliveredCount := 0, orderCount := 0, finished := s.finished + s.orderCount);
    forall n: nat
      ensures n in s'.log <==> n < s'.finished
      ensures n in s'.cooked <==> n < s'.finished
    {
      if s.finished <= n < s'.finished { assert SlotOk(s.orders[n - s.finished], n - s.finished, s.finished); }
    }
  }

  lemma DeliverKeeps(s: Shop, d: nat)
    requires ShopInv(s) && Enabled(s, Deliver(d))
    ensures InTable(s, Deliver(d)) && ShopInv(DeliverNext(s, d))
  {
    hide SlotsInv, CooksInv, CouriersInv, LogsInv;
    DeliverInTable(s, d);
    DeliveredKeeps(s, d);
    var s' := Delivered(s, d);
    if s'.deliveredCount == s'.orderCount { ResetKeeps(s'); }
  }

  lemma StepKeeps(s: Shop, e: Event)
    requires ShopInv(s) && Enabled(s, e)
    ensures InTable(s, e) && ShopInv(Next(s, e))
  {
    match e
    case Receive => if s.orderCount < MAX_ORDERS { ReceiveKeeps(s); }
    case CookTakes(c) => CookTakesKeeps(s, c);
    case CookDone(c) => CookDoneKeeps(s, c);
    case CourierPicks(d) => CourierPicksKeeps(s, d);
    case Deliver(d) => DeliverKeeps(s, d);
    case CourierReturns(d) => CourierReturnsKeeps(s, d);
  }

  lemma {:induction false} RunKeeps(shops: seq<Shop>, events: seq<Event>, k: nat)
    requires Run(shops, events) && k <= |events|
    ensures ShopInv(shops[k])
  {
    if k > 0 {
      RunKeeps(shops, events, k - 1);
      assert Step(shops[k - 1], events[k - 1], shops[k - 1 + 1]);
      hide ShopInv;
      StepKeeps(shops[k - 1], events[k - 1]);
    }
  }

  // ---- the results ----

  /** No order is ever held by two cooks or two couriers, and nobody carries more than three. */
  lemma OneHolder(shops: seq<Shop>, events: seq<Event>, k: nat)
    requires Run(shops, events) && k <= |events|
    ensures var s := shops[k];
            && (forall b, c :: 0 <= b < c < |s.cooks| && s.cooks[b].Holding? && s.cooks[c].Holding? ==>
                  s.cooks[b].i != s.cooks[c].i)
            && (forall d :: 0 <= d < |s.couriers| ==> |s.couriers[d].carried| <= 3)
            && (forall d, e, i, j ::
                  0 <= d < e < |s.couriers| && s.couriers[d].next <= i < |s.couriers[d].carried|
                  && s.couriers[e].next <= j < |s.couriers[e].carried|
                  ==> s.couriers[d].carried[i] != s.couriers[e].carried[j])
  {
    RunKeeps(shops, events, k);
    var s := shops[k];
    assert forall d :: 0 <= d < |s.couriers| ==> CourierOk(s.couriers[d], d, s.orders, s.orderCount);
  }

  /** A slot that is about to be written by a new order is held by no cook and awaited by no courier. */
  lemma ReuseIsSafe(shops: seq<Shop>, events: seq<Event>, k: nat)
    requires Run(shops, events) && k <= |events|
    ensures var s := shops[k];
            && (forall c :: 0 <= c < |s.cooks| && s.cooks[c].Holding? ==> s.cooks[c].i != s.orderCount)
            && (forall d, i :: 0 <= d < |s.couriers| && s.couriers[d].next <= i < |s.couriers[d].carried| ==>
                  s.couriers[d].carried[i] != s.orderCount)
  {
    RunKeeps(shops, events, k);
    var s := shops[k];
    assert forall d :: 0 <= d < |s.couriers| ==> CourierOk(s.couriers[d], d, s.orders, s.orderCount);
  }

  /** Every delivery is of a cooked order that was not delivered before. */
  lemma DeliveredOnceAfterReady(shops: seq<Shop>, events: seq<Event>, k: nat)
    requires Run(shops, events) && k <= |events|
    ensures NoRepeat(shops[k].log) && NoRepeat(shops[k].cooked)
    ensures forall n :: n in shops[k].log ==> n in shops[k].cooked
    ensures forall n :: n in shops[k].cooked ==> n < shops[k].received
  {
    RunKeeps(shops, events, k);
    var s := shops[k];
    forall n | n in s.log ensures n in s.cooked {
      if s.finished <= n { assert SlotOk(s.orders[n - s.finished], n - s.finished, s.finished); }
    }
  }

  /** The counters: delivered slots, orders of finished sessions, and nothing lost between them. */
  lemma Conservation(shops: seq<Shop>, events: seq<Event>, k: nat)
    requires Run(shops, events) && k <= |events|
    ensures var s := shops[k];
            && s.orderCount <= |s.orders|
            && s.deliveredCount == CountDelivered(s.orders, s.orderCount)
            && s.received == s.finished + s.orderCount
            && |s.log| == s.finished + s.deliveredCount
            && (forall n: nat :: n < s.finished ==> n in s.log)
            && (s.deliveredCount == s.orderCount ==> s.orderCount == 0)
  {
    RunKeeps(shops, events, k);
  }

  /** No cook holds an order, no courier has one left to deliver, and all received orders are delivered. */
  ghost predicate Quiet(s: Shop) {
    && (forall c :: 0 <= c < |s.cooks| ==> s.cooks[c].Idle?)
    && (forall d :: 0 <= d < |s.couriers| ==> s.couriers[d].next == |s.couriers[d].carried|)
    && (forall n: nat :: n in s.log <==> n < s.received)
  }

  /** The table is reset only when the shop is quiet. */
  lemma ResetIsQuiet(shops: seq<Shop>, events: seq<Event>, k: nat)
    requires Run(shops, events) && k < |events| && shops[k + 1].finished != shops[k].finished
    ensures shops[k + 1].orderCount == 0 && Quiet(shops[k + 1])
  {
    RunKeeps(shops, events, k);
    RunKeeps(shops, events, k + 1);
    var s, e := shops[k], events[k];
    assert e.Deliver?;
    DeliverInTable(s, e.d);
    DeliveredKeeps(s, e.d);
    ResetKeeps(Delivered(s, e.d));
  }

  /** What was delivered stays delivered, in the same order. */
  lemma {:induction false} LogGrows(shops: seq<Shop>, events: seq<Event>, j: nat, k: nat)
    requires Run(shops, events) && j <= k <= |events|
    ensures shops[j].log <= shops[k].log && shops[j].cooked <= shops[k].cooked
    decreases k
  {
    if j < k { LogGrows(shops, events, j, k - 1); }
  }
}
