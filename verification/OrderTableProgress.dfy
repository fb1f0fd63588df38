/** No order gets lost or stuck: who has it at every moment, and what can be done next. */
module OrderTableProgress {
  import opened OrderTable
  import opened OrderTableSafety
  import opened Sums

  // ---- who has an order ----

  /** Slot `i` is among those the courier still has to deliver. */
  ghost predicate InHands(me: Courier, i: nat) {
    exists k :: me.next <= k < |me.carried| && me.carried[k] == i
  }

  ghost predicate Held(cooks: seq<Cook>, i: nat) { exists c :: 0 <= c < |cooks| && cooks[c] == Holding(i) }

  /** An assigned order is in the hands of its courier until delivered, one being prepared is with a cook. */
  ghost predicate SlotHeld(s: Shop, i: nat)
    requires i < |s.orders|
  {
    var o := s.orders[i];
    && (o.courier != -1 && !o.delivered ==> 0 <= o.courier < |s.couriers| && InHands(s.couriers[o.courier], i))
    && (o.prepared && !o.ready ==> Held(s.cooks, i))
  }

  ghost predicate HeldInv(s: Shop) {
    s.orderCount <= |s.orders| && forall i :: 0 <= i < s.orderCount ==> SlotHeld(s, i)
  }

  lemma ReceiveHolds(s: Shop)
    requires HeldInv(s) && s.orderCount < |s.orders|
    ensures HeldInv(ReceiveNext(s))
  {
    hide InHands, Held;
    var s' := ReceiveNext(s);
    forall i | 0 <= i < s'.orderCount ensures SlotHeld(s', i) {
      if i < s.orderCount { assert SlotHeld(s, i); }
    }
  }

  lemma StillHeld(cooks: seq<Cook>, i: nat, c: nat, cook: Cook)
    requires Held(cooks, i) && c < |cooks| && cooks[c] != Holding(i)
    ensures Held(cooks[c := cook], i)
  {
    var b :| 0 <= b < |cooks| && cooks[b] == Holding(i);
    assert cooks[c := cook][b] == Holding(i);
  }

  lemma CookTakesHolds(s: Shop, c: nat)
    requires HeldInv(s) && Enabled(s, CookTakes(c))
    ensures HeldInv(CookTakesNext(s, c))
  {
    hide InHands, Held;
    var s', t := CookTakesNext(s, c), FirstUntouched(s.orders, 0, s.orderCount);
    if t < s.orderCount {
      forall i | 0 <= i < s'.orderCount ensures SlotHeld(s', i) {
        assert SlotHeld(s, i);
        if i == t { NowHeld(s'.cooks, c, i); } else if Held(s.cooks, i) { StillHeld(s.cooks, i, c, Holding(t)); }
      }
    }
  }

  lemma NowHeld(cooks: seq<Cook>, c: nat, i: nat)
    requires c < |cooks| && cooks[c] == Holding(i)
    ensures Held(cooks, i)
  {
  }

  lemma CookDoneHolds(s: Shop, c: nat)
    requires HeldInv(s) && Enabled(s, CookDone(c)) && s.cooks[c].i < |s.orders|
    ensures HeldInv(CookDoneNext(s, c))
  {
    hide InHands, Held;
    var s', t := CookDoneNext(s, c), s.cooks[c].i;
    forall i | 0 <= i < s'.orderCount ensures SlotHeld(s', i) {
      assert SlotHeld(s, i);
      if i != t && Held(s.cooks, i) { StillHeld(s.cooks, i, c, Idle); }
    }
  }

  lemma PicksHold(s: Shop, p: Picked, d: nat)
    requires HeldInv(s) && d < |s.couriers| && s.couriers[d].carried == []
    requires PickedFrom(s.orders, p, d, 0, s.orderCount)
    ensures HeldInv(s.(orders := p.orders, couriers := s.couriers[d := Courier(true, p.carried, 0)]))
  {
    var s' := s.(orders := p.orders, couriers := s.couriers[d := Courier(true, p.carried, 0)]);
    forall i | 0 <= i < s'.orderCount ensures SlotHeld(s', i) {
      assert SlotHeld(s, i);
      hide Held;
      if i in p.carried {
        var k :| 0 <= k < |p.carried| && p.carried[k] == i;
        assert s'.couriers[d].carried[k] == i;
      }
    }
  }

  lemma CourierPicksHolds(s: Shop, d: nat)
    requires ShopInv(s) && HeldInv(s) && Enabled(s, CourierPicks(d))
    ensures HeldInv(CourierPicksNext(s, d))
  {
    hide HeldInv, CooksInv, CountsInv, LogsInv;
    PickMeans(s.orders, CAPACITY, d, 0, s.orderCount);
    assert CourierOk(s.couriers[d], d, s.orders, s.orderCount);
    PicksHold(s, Pick(s.orders, CAPACITY, d, 0, s.orderCount), d);
  }

  lemma StillInHands(me: Courier, i: nat)
    requires InHands(me, i) && me.next < |me.carried| && me.carried[me.next] != i
    ensures InHands(me.(next := me.next + 1), i)
  {
    var k :| me.next <= k < |me.carried| && me.carried[k] == i;
    assert me.(next := me.next + 1).carried[k] == i;
  }

  lemma DeliveredHolds(s: Shop, d: nat)
    requires HeldInv(s) && Enabled(s, Deliver(d)) && InTable(s, Deliver(d))
    ensures HeldInv(Delivered(s, d))
  {
    hide InHands, Held;
    var me, s' := s.couriers[d], Delivered(s, d);
    forall i | 0 <= i < s'.orderCount ensures SlotHeld(s', i) {
      assert SlotHeld(s, i);
      if i != me.carried[me.next] && InHands(me, i) { StillInHands(me, i); }
    }
  }

  lemma CourierReturnsHolds(s: Shop, d: nat)
    requires HeldInv(s) && Enabled(s, CourierReturns(d))
    ensures HeldInv(CourierReturnsNext(s, d))
  {
    hide Held;
    var s' := CourierReturnsNext(s, d);
    forall i | 0 <= i < s'.orderCount ensures SlotHeld(s', i) { assert SlotHeld(s, i); }
  }

  lemma StepHolds(s: Shop, e: Event)
    requires ShopInv(s) && HeldInv(s) && Enabled(s, e) && InTable(s, e)
    ensures HeldInv(Next(s, e))
  {
    hide ShopInv;
    match e
    case Receive => if s.orderCount < MAX_ORDERS { hide HeldInv; ReceiveHolds(s); }
    case CookTakes(c) => hide HeldInv; CookTakesHolds(s, c);
    case CookDone(c) => hide HeldInv; CookDoneHolds(s, c);
    case CourierPicks(d) => hide HeldInv; CourierPicksHolds(s, d);
    case Deliver(d) => DeliveredHolds(s, d);
    case CourierReturns(d) => hide HeldInv; CourierReturnsHolds(s, d);
  }

  lemma {:induction false} RunHolds(shops: seq<Shop>, events: seq<Event>, k: nat)
    requires Run(shops, events) && k <= |events|
    ensures HeldInv(shops[k])
  {
    if k > 0 {
      RunHolds(shops, events, k - 1);
      RunKeeps(shops, events, k - 1);
      assert Step(shops[k - 1], events[k - 1], shops[k - 1 + 1]);
      hide ShopInv, HeldInv, Next;
      StepHolds(shops[k - 1], events[k - 1]);
    }
  }

  /**
   * In every run an order that has been assigned and not delivered is among those its courier still has to
   * deliver, and one that is being prepared is held by a cook.
   */
  lemma NothingIsLost(shops: seq<Shop>, events: seq<Event>, k: nat, i: nat)
    requires Run(shops, events) && k <= |events| && i < shops[k].orderCount
    ensures i < |shops[k].orders|
    ensures var s := shops[k];
            var o := s.orders[i];
            && (o.courier != -1 && !o.delivered ==>
                  0 <= o.courier < |s.couriers|
                  && exists j :: s.couriers[o.courier].next <= j < |s.couriers[o.courier].carried|
                                 && s.couriers[o.courier].carried[j] == i)
            && (o.prepared && !o.ready ==> exists c :: 0 <= c < |s.cooks| && s.cooks[c] == Holding(i))
  {
    RunHolds(shops, events, k);
    assert SlotHeld(shops[k], i);
  }

  // ---- what is left to do ----

  /** Steps an order still needs, with a courier's way back shared among those it carries. */
  function OrderWork(o: Order): nat {
    if o.delivered then 0 else if o.courier != -1 then 1 else if o.ready then 3 else if o.prepared then 4 else 5
  }

  function SlotWork(orders: seq<Order>, n: nat): nat
    requires n <= |orders|
  {
    if n == 0 then 0 else SlotWork(orders, n - 1) + OrderWork(orders[n - 1])
  }

  function Out(): Courier -> nat { (c: Courier) => if c.busy then 1 else 0 }

  /** What is left of the session. */
  function WorkLeft(s: Shop): nat
    requires s.orderCount <= |s.orders|
  {
    SlotWork(s.orders, s.orderCount) + Sum(s.couriers, Out())
  }

  lemma {:induction false} WorkReplace(orders: seq<Order>, i: nat, o: Order, n: nat)
    requires i < n <= |orders|
    ensures SlotWork(orders[i := o], n) + OrderWork(orders[i]) == SlotWork(orders, n) + OrderWork(o)
  {
    if i == n - 1 {
      WorkSame(orders, orders[i := o], n - 1);
    } else {
      WorkReplace(orders, i, o, n - 1);
    }
  }

  lemma {:induction false} WorkSame(orders: seq<Order>, orders': seq<Order>, n: nat)
    requires n <= |orders| && n <= |orders'| && forall i :: 0 <= i < n ==> orders[i] == orders'[i]
    ensures SlotWork(orders, n) == SlotWork(orders', n)
  {
    if n > 0 { WorkSame(orders, orders', n - 1); }
  }

  lemma {:induction false} PickWork(orders: seq<Order>, room: nat, d: nat, i: nat, n: nat)
    requires i <= n <= |orders|
    ensures |Pick(orders, room, d, i, n).orders| == |orders|
    ensures var p := Pick(orders, room, d, i, n); SlotWork(p.orders, n) + 2 * |p.carried| == SlotWork(orders, n)
    decreases n - i
  {
    if i < n && room > 0 {
      if Available(orders[i]) {
        WorkReplace(orders, i, orders[i].(courier := d), n);
        PickWork(orders[i := orders[i].(courier := d)], room - 1, d, i + 1, n);
      } else {
        PickWork(orders, room, d, i + 1, n);
      }
      hide SlotWork;
    }
  }

  lemma {:induction false} AllDone(orders: seq<Order>, n: nat)
    requires n <= |orders| && forall i :: 0 <= i < n ==> orders[i].delivered
    ensures SlotWork(orders, n) == 0
  {
    if n > 0 { AllDone(orders, n - 1); }
  }

  lemma CookWorks(s: Shop, c: nat)
    requires ShopInv(s) && c < |s.cooks|
    ensures s.cooks[c].Idle? ==>
              var s' := CookTakesNext(s, c);
              s'.orderCount <= |s'.orders| && (s' == s || WorkLeft(s') < WorkLeft(s))
    ensures s.cooks[c].Holding? ==>
              s.cooks[c].i < s.orderCount && WorkLeft(CookDoneNext(s, c)) < WorkLeft(s)
  {
    hide CouriersInv, CountsInv, LogsInv, Sum;
    if s.cooks[c].Idle? {
      var i := FirstUntouched(s.orders, 0, s.orderCount);
      if i < s.orderCount {
        assert SlotOk(s.orders[i], i, s.finished);
        WorkReplace(s.orders, i, s.orders[i].(prepared := true), s.orderCount);
      }
    } else {
      var i := s.cooks[c].i;
      assert SlotOk(s.orders[i], i, s.finished);
      WorkReplace(s.orders, i, s.orders[i].(ready := true, inOven := false), s.orderCount);
    }
    hide SlotWork;
  }

  lemma CourierPicksWorks(s: Shop, d: nat)
    requires ShopInv(s) && Enabled(s, CourierPicks(d))
    ensures var s' := CourierPicksNext(s, d);
            && s'.orderCount <= |s'.orders|
            && (if Pick(s.orders, CAPACITY, d, 0, s.orderCount).carried == [] then s' == s
                else WorkLeft(s') < WorkLeft(s))
  {
    hide SlotsInv, CooksInv, CouriersInv, CountsInv, LogsInv;
    PickWork(s.orders, CAPACITY, d, 0, s.orderCount);
    var p := Pick(s.orders, CAPACITY, d, 0, s.orderCount);
    hide Pick, SlotWork;
    SumReplace(s.couriers, d, Courier(true, p.carried, 0), Out());
  }

  lemma DeliverWorks(s: Shop, d: nat)
    requires ShopInv(s) && Enabled(s, Deliver(d)) && InTable(s, Deliver(d))
    ensures var s' := DeliverNext(s, d); s'.orderCount <= |s'.orders| && WorkLeft(s') < WorkLeft(s)
  {
    hide SlotsInv, CooksInv, CouriersInv, LogsInv;
    DeliverInTable(s, d);
    var me := s.couriers[d];
    var i := me.carried[me.next];
    hide ShopInv;
    WorkReplace(s.orders, i, s.orders[i].(delivered := true), s.orderCount);
    SumReplace(s.couriers, d, me.(next := me.next + 1), Out());
    hide Sum;
  }

  lemma CourierReturnsWorks(s: Shop, d: nat)
    requires ShopInv(s) && Enabled(s, CourierReturns(d))
    ensures WorkLeft(CourierReturnsNext(s, d)) < WorkLeft(s)
  {
    hide SlotsInv, CooksInv, CouriersInv, CountsInv, LogsInv;
    SumReplace(s.couriers, d, Courier(false, [], 0), Out());
  }

  /** Cooks and couriers only ever bring the session closer to its end, or find nothing to do. */
  lemma WorkFalls(s: Shop, e: Event)
    requires ShopInv(s) && Enabled(s, e) && !e.Receive?
    ensures InTable(s, e) && Next(s, e).orderCount <= |Next(s, e).orders|
    ensures Next(s, e) == s || WorkLeft(Next(s, e)) < WorkLeft(s)
  {
    StepKeeps(s, e);
    hide ShopInv, WorkLeft, CookTakesNext, CookDoneNext, CourierPicksNext, DeliverNext, CourierReturnsNext;
    match e
    case CookTakes(c) => CookWorks(s, c);
    case CookDone(c) => CookWorks(s, c);
    case CourierPicks(d) => CourierPicksWorks(s, d);
    case Deliver(d) => DeliverWorks(s, d);
    case CourierReturns(d) => CourierReturnsWorks(s, d);
    SizedNext(s, e);
  }

  lemma SizedNext(s: Shop, e: Event)
    requires ShopInv(s) && Enabled(s, e)
    ensures InTable(s, e) && Next(s, e).orderCount <= |Next(s, e).orders|
  {
    StepKeeps(s, e);
    hide Next;
  }

  /** An order that is not delivered: somebody has it, or it waits for a cook or a courier. */
  lemma Undelivered(s: Shop) returns (i: nat)
    requires ShopInv(s) && s.orderCount > 0
    ensures i < s.orderCount && !s.orders[i].delivered
  {
    CountAll(s.orders, s.orderCount);
    i :| i < s.orderCount && !s.orders[i].delivered;
  }

  /** With the cooks and couriers idle, the next scan of one of them finds something. */
  lemma IdleShopServes(s: Shop) returns (e: Event)
    requires ShopInv(s) && HeldInv(s) && s.orderCount > 0 && |s.cooks| > 0 && |s.couriers| > 0
    requires forall c :: 0 <= c < |s.cooks| ==> s.cooks[c].Idle?
    requires forall d :: 0 <= d < |s.couriers| ==> !s.couriers[d].busy
    ensures !e.Receive? && Enabled(s, e) && InTable(s, e) && Next(s, e) != s
  {
    var i := Undelivered(s);
    assert SlotHeld(s, i) && SlotOk(s.orders[i], i, s.finished);
    hide CountsInv, LogsInv;
    forall d | 0 <= d < |s.couriers| ensures s.couriers[d].carried == [] {
      assert CourierOk(s.couriers[d], d, s.orders, s.orderCount);
    }
    if s.orders[i].ready {
      e := CourierPicks(0);
      PickIsGreedy(s.orders, CAPACITY, 0, 0, s.orderCount, i);
      hide Pick;
      assert CourierPicksNext(s, 0).couriers[0].busy;
    } else {
      e := CookTakes(0);
      assert CookTakesNext(s, 0).cooks[0].Holding?;
    }
  }

  /**
   * With at least one cook and one courier the session always goes on: while an order is not delivered some
   * cook or courier can take a step that brings it closer to its end, without waiting for new orders.
   */
  lemma NobodyStuck(shops: seq<Shop>, events: seq<Event>, k: nat) returns (e: Event)
    requires Run(shops, events) && k <= |events|
    requires shops[k].orderCount > 0 && |shops[k].cooks| > 0 && |shops[k].couriers| > 0
    ensures !e.Receive? && Enabled(shops[k], e) && InTable(shops[k], e)
    ensures shops[k].orderCount <= |shops[k].orders| && Next(shops[k], e).orderCount <= |Next(shops[k], e).orders|
    ensures WorkLeft(Next(shops[k], e)) < WorkLeft(shops[k])
  {
    RunKeeps(shops, events, k);
    RunHolds(shops, events, k);
    var s := shops[k];
    hide ShopInv, HeldInv, WorkLeft, Next;
    if d :| 0 <= d < |s.couriers| && s.couriers[d].busy {
      e := BusyMoves(s, d);
    } else if c :| 0 <= c < |s.cooks| && s.cooks[c].Holding? {
      e := CookDone(c);
      HoldingMoves(s, c);
    } else {
      e := IdleShopServes(s);
    }
    WorkFalls(s, e);
    SizedNow(s);
  }

  lemma SizedNow(s: Shop)
    requires ShopInv(s)
    ensures s.orderCount <= |s.orders|
  {
  }

  lemma BusyMoves(s: Shop, d: nat) returns (e: Event)
    requires ShopInv(s) && d < |s.couriers| && s.couriers[d].busy
    ensures !e.Receive? && Enabled(s, e) && InTable(s, e) && Next(s, e) != s
  {
    assert CourierOk(s.couriers[d], d, s.orders, s.orderCount);
    e := if s.couriers[d].next < |s.couriers[d].carried| then Deliver(d) else CourierReturns(d);
    StepKeeps(s, e);
    hide ShopInv;
    assert e.Deliver? ==> DeliverNext(s, d).couriers[d].next == s.couriers[d].next + 1;
    assert e.CourierReturns? ==> !CourierReturnsNext(s, d).couriers[d].busy;
  }

  lemma HoldingMoves(s: Shop, c: nat)
    requires ShopInv(s) && c < |s.cooks| && s.cooks[c].Holding?
    ensures InTable(s, CookDone(c)) && Next(s, CookDone(c)) != s
  {
    StepKeeps(s, CookDone(c));
    hide ShopInv;
    assert CookDoneNext(s, c).cooks[c].Idle?;
  }

  // ---- how much is carried ----

  /** After a scan, an order ready and unassigned is left only by a courier that carries three. */
  lemma FullHands(shops: seq<Shop>, events: seq<Event>, k: nat, i: nat)
    requires Run(shops, events) && k < |events| && events[k].CourierPicks?
    requires i < shops[k + 1].orderCount <= |shops[k + 1].orders|
    requires var o := shops[k + 1].orders[i]; o.ready && !o.delivered && o.courier == -1
    ensures var d := events[k].d; d < |shops[k + 1].couriers| && |shops[k + 1].couriers[d].carried| == 3
  {
    RunKeeps(shops, events, k);
    assert Step(shops[k], events[k], shops[k + 1]);
    var s, d := shops[k], events[k].d;
    assert SlotOk(s.orders[i], i, s.finished) || i >= s.orderCount;
    PickMeans(s.orders, CAPACITY, d, 0, s.orderCount);
    PickIsGreedy(s.orders, CAPACITY, d, 0, s.orderCount, i);
    hide Pick, ShopInv;
  }

  // ---- what is accepted ----

  /** A client's order goes into the next slot, untouched and unassigned, exactly while fewer than 100 are in use. */
  lemma ReceivesExactly(shops: seq<Shop>, events: seq<Event>, k: nat)
    requires Run(shops, events) && k < |events| && events[k].Receive?
    ensures var s, s' := shops[k], shops[k + 1];
            if s.orderCount < 100 then
              && s'.orderCount == s.orderCount + 1 && s'.received == s.received + 1
              && s.orderCount < |s'.orders| == |s.orders|
              && s'.orders[s.orderCount] == Order(s.orderCount, false, false, false, false, false, -1, s.received)
              && (forall i :: 0 <= i < s.orderCount ==> s'.orders[i] == s.orders[i])
              && s'.cooks == s.cooks && s'.couriers == s.couriers
            else s' == s
  {
    RunKeeps(shops, events, k);
    assert Step(shops[k], events[k], shops[k + 1]);
  }
}
