/** One kind of vehicle in the parking lot: any number of owners and one attendant. */
module Parking {
  import opened Sums

  const MAX_PICKUPS: nat := 4
  const MAX_AUTOMOBILES: nat := 8

  datatype Owner =
    | Arriving        // about to lock the counter
    | Deciding        // holds the lock, reads the counter
    | InLot           // holds it, has taken a spot
    | Leaving         // holds it, found no spot
    | Parked          // unlocked, about to post the semaphore `new`
    | WaitingValet    // waits for the semaphore `inCharge`
    | Served
    | TurnedAway

  datatype Attendant =
    | AwaitingCar     // waits for `new`
    | Fetching        // has a car, about to lock the counter
    | Freeing         // holds the lock
    | Reporting       // about to post `inCharge`

  datatype Holder = Nobody | ByOwner(i: nat) | ByAttendant

  datatype Lot = Lot(max: nat, free: int, lock: Holder, newCars: nat, inCharge: nat,
                     owners: seq<Owner>, attendant: Attendant)

  predicate OwnerHolds(o: Owner) { o.Deciding? || o.InLot? || o.Leaving? }

  predicate Finished(o: Owner) { o.Served? || o.TurnedAway? }

  predicate OwnerEnabled(s: Lot, i: nat) {
    i < |s.owners| &&
    match s.owners[i]
    case Arriving => s.lock == Nobody
    case WaitingValet => s.inCharge > 0
    case Served => false
    case TurnedAway => false
    case _ => true
  }

  function OwnerNext(s: Lot, i: nat): Lot
    requires OwnerEnabled(s, i)
  {
    match s.owners[i]
    case Arriving => s.(lock := ByOwner(i), owners := s.owners[i := Deciding])
    case Deciding =>
      if s.free > 0 then s.(free := s.free - 1, owners := s.owners[i := InLot])
      else s.(owners := s.owners[i := Leaving])
    case InLot => s.(lock := Nobody, owners := s.owners[i := Parked])
    case Leaving => s.(lock := Nobody, owners := s.owners[i := TurnedAway])
    case Parked => s.(newCars := s.newCars + 1, owners := s.owners[i := WaitingValet])
    case WaitingValet => s.(inCharge := s.inCharge - 1, owners := s.owners[i := Served])
  }

  predicate AttendantEnabled(s: Lot) {
    match s.attendant
    case AwaitingCar => s.newCars > 0
    case Fetching => s.lock == Nobody
    case _ => true
  }

  function AttendantNext(s: Lot): Lot
    requires AttendantEnabled(s)
  {
    match s.attendant
    case AwaitingCar => s.(newCars := s.newCars - 1, attendant := Fetching)
    case Fetching => s.(lock := ByAttendant, attendant := Freeing)
    case Freeing => s.(free := s.free + 1, lock := Nobody, attendant := Reporting)
    case Reporting => s.(inCharge := s.inCharge + 1, attendant := AwaitingCar)
  }

  ghost predicate Step(s: Lot, s': Lot) {
    || (exists i :: OwnerEnabled(s, i) && s' == OwnerNext(s, i))
    || (AttendantEnabled(s) && s' == AttendantNext(s))
  }

  ghost predicate Init(s: Lot) {
    && s.free == s.max && s.lock == Nobody && s.newCars == 0 && s.inCharge == 0 && s.attendant == AwaitingCar
    && forall i :: 0 <= i < |s.owners| ==> s.owners[i] == Arriving
  }

  ghost predicate Run(lots: seq<Lot>) {
    lots != [] && Init(lots[0]) && forall k :: 0 <= k < |lots| - 1 ==> Step(lots[k], lots[k + 1])
  }

  // ---- weights of the owners ----

  /** Holds a spot without having told the attendant. */
  function Unposted(): Owner -> nat { (o: Owner) => if o.InLot? || o.Parked? then 1 else 0 }

  function Waiting(): Owner -> nat { (o: Owner) => if o.WaitingValet? then 1 else 0 }

  /** Got a spot, then or earlier. */
  function Entered(): Owner -> nat {
    (o: Owner) => if o.InLot? || o.Parked? || o.WaitingValet? || o.Served? then 1 else 0
  }

  predicate Refused(o: Owner) { o.Leaving? || o.TurnedAway? }

  /** Steps an owner still causes, its own and the attendant's for its car. */
  function Effort(): Owner -> nat {
    (o: Owner) =>
      match o
      case Arriving => 9
      case Deciding => 8
      case InLot => 7
      case Parked => 6
      case WaitingValet => 1
      case Leaving => 1
      case Served => 0
      case TurnedAway => 0
  }

  // ---- conservation ----

  function HoldsCar(a: Attendant): nat { if a.Fetching? || a.Freeing? then 1 else 0 }

  function Busy(a: Attendant): nat { if a.AwaitingCar? then 0 else 1 }

  ghost predicate LockInv(s: Lot) {
    && (s.attendant.Freeing? <==> s.lock == ByAttendant)
    && (s.lock.ByOwner? ==> s.lock.i < |s.owners|)
    && forall i :: 0 <= i < |s.owners| ==> (OwnerHolds(s.owners[i]) <==> s.lock == ByOwner(i))
  }

  ghost predicate SpotInv(s: Lot) {
    && 0 <= s.free <= s.max
    && s.max - s.free == Sum(s.owners, Unposted()) + s.newCars + HoldsCar(s.attendant)
  }

  ghost predicate ValetInv(s: Lot) {
    Sum(s.owners, Waiting()) == s.newCars + Busy(s.attendant) + s.inCharge
  }

  /** Nobody is refused unless all spots have been given out. */
  ghost predicate RefusalInv(s: Lot) {
    (exists i :: 0 <= i < |s.owners| && Refused(s.owners[i])) ==> Sum(s.owners, Entered()) >= s.max
  }

  ghost predicate LotInv(s: Lot) { LockInv(s) && SpotInv(s) && ValetInv(s) }

  /** Steps left before everybody is served or turned away. */
  function StepsLeft(s: Lot): nat {
    Sum(s.owners, Effort()) + 4 * s.newCars
    + (match s.attendant case AwaitingCar => 0 case Fetching => 3 case Freeing => 2 case Reporting => 1)
  }

  lemma OwnerMoves(s: Lot, i: nat)
    requires OwnerEnabled(s, i)
    ensures var s' := OwnerNext(s, i);
            s'.attendant == s.attendant && s'.max == s.max && |s'.owners| == |s.owners|
            && s'.owners == s.owners[i := s'.owners[i]]
  {
  }

  lemma OwnerKeeps(s: Lot, i: nat)
    requires LotInv(s) && OwnerEnabled(s, i)
    ensures LotInv(OwnerNext(s, i)) && StepsLeft(OwnerNext(s, i)) < StepsLeft(s)
  {
    var s' := OwnerNext(s, i);
    OwnerMoves(s, i);
    SumReplace(s.owners, i, s'.owners[i], Unposted());
    SumReplace(s.owners, i, s'.owners[i], Waiting());
    SumReplace(s.owners, i, s'.owners[i], Effort());
  }

  lemma AttendantKeeps(s: Lot)
    requires LotInv(s) && AttendantEnabled(s)
    ensures LotInv(AttendantNext(s)) && StepsLeft(AttendantNext(s)) < StepsLeft(s)
  {
  }

  lemma StepKeeps(s: Lot, s': Lot)
    requires LotInv(s) && Step(s, s')
    ensures LotInv(s') && StepsLeft(s') < StepsLeft(s)
    ensures s'.max == s.max && |s'.owners| == |s.owners|
  {
    hide LotInv, StepsLeft;
    if AttendantEnabled(s) && s' == AttendantNext(s) {
      AttendantKeeps(s);
    } else {
      var i :| OwnerEnabled(s, i) && s' == OwnerNext(s, i);
      OwnerKeeps(s, i);
    }
  }

  lemma {:induction false} RunKeeps(lots: seq<Lot>, k: nat)
    requires Run(lots) && k < |lots|
    ensures LotInv(lots[k]) && StepsLeft(lots[k]) + k <= 9 * |lots[0].owners| && lots[k].max == lots[0].max
    ensures |lots[k].owners| == |lots[0].owners|
  {
    if k == 0 {
      var owners := lots[0].owners;
      SumConstant(owners, 0, Unposted());
      SumConstant(owners, 0, Waiting());
      SumConstant(owners, 9, Effort());
    } else {
      hide LotInv, StepsLeft, Step;
      RunKeeps(lots, k - 1);
      StepKeeps(lots[k - 1], lots[k]);
    }
  }

  // ---- who gets a spot ----

  lemma {:induction false} SumOrder(owners: seq<Owner>)
    ensures Sum(owners, Unposted()) + Sum(owners, Waiting()) <= Sum(owners, Entered())
  {
    if owners != [] { SumOrder(owners[..|owners| - 1]); }
  }

  lemma {:induction false} OneLess(owners: seq<Owner>)
    ensures Sum(owners, Entered()) <= |owners|
    ensures (exists i :: 0 <= i < |owners| && Refused(owners[i])) ==> Sum(owners, Entered()) < |owners|
  {
    if owners != [] {
      var front := owners[..|owners| - 1];
      OneLess(front);
      if i :| 0 <= i < |owners| && Refused(owners[i]) {
        if i < |front| { assert Refused(front[i]); }
      }
    }
  }

  lemma OwnerKeepsRefusals(s: Lot, i: nat)
    requires LotInv(s) && RefusalInv(s) && OwnerEnabled(s, i)
    ensures RefusalInv(OwnerNext(s, i))
  {
    var s' := OwnerNext(s, i);
    OwnerMoves(s, i);
    SumReplace(s.owners, i, s'.owners[i], Entered());
    SumOrder(s.owners);
    if j :| 0 <= j < |s'.owners| && Refused(s'.owners[j]) {
      if j != i { assert Refused(s.owners[j]); }
    }
    hide Sum;
  }

  lemma {:induction false} RunRefuses(lots: seq<Lot>, k: nat)
    requires Run(lots) && k < |lots|
    ensures RefusalInv(lots[k])
  {
    if k > 0 {
      hide LotInv, RefusalInv;
      RunRefuses(lots, k - 1);
      RunKeeps(lots, k - 1);
      var s, s' := lots[k - 1], lots[k - 1 + 1];
      if AttendantEnabled(s) && s' == AttendantNext(s) {
        SameRefusals(s, s');
      } else {
        var i :| OwnerEnabled(s, i) && s' == OwnerNext(s, i);
        OwnerKeepsRefusals(s, i);
      }
    }
  }

  lemma SameRefusals(s: Lot, s': Lot)
    requires RefusalInv(s) && s'.owners == s.owners && s'.max == s.max
    ensures RefusalInv(s')
  {
  }

  /** An owner that decides parks if a spot is left, and leaves if all are taken, by cars and owners on their way. */
  lemma Decision(lots: seq<Lot>, k: nat, i: nat)
    requires Run(lots) && k + 1 < |lots| && i < |lots[k].owners| == |lots[k + 1].owners|
    requires lots[k].owners[i].Deciding? && !lots[k + 1].owners[i].Deciding?
    ensures var s := lots[k];
            lots[k + 1].owners[i]
            == if Sum(s.owners, Unposted()) + s.newCars + HoldsCar(s.attendant) < lots[0].max then InLot else Leaving
  {
    RunKeeps(lots, k);
    hide Sum;
    assert Step(lots[k], lots[k + 1]);
  }

  /** In any state of any run: as long as there is a spot for everybody, nobody is refused. */
  lemma RoomForAll(lots: seq<Lot>, k: nat, i: nat)
    requires Run(lots) && k < |lots| && i < |lots[k].owners| <= lots[0].max
    ensures !Refused(lots[k].owners[i])
  {
    RunRefuses(lots, k);
    RunKeeps(lots, k);
    OneLess(lots[k].owners);
  }

  lemma {:induction false} AllEntered(owners: seq<Owner>)
    requires forall i :: 0 <= i < |owners| ==> !Refused(owners[i]) && Finished(owners[i])
    ensures Sum(owners, Entered()) == |owners|
  {
    SumConstant(owners, 1, Entered());
  }

  /** Spots taken are owners not yet announced, cars announced, and the one the attendant fetches. */
  lemma SpotsConserved(lots: seq<Lot>, k: nat)
    requires Run(lots) && k < |lots|
    ensures var s := lots[k];
            && 0 <= s.free <= lots[0].max
            && lots[0].max - s.free == Sum(s.owners, Unposted()) + s.newCars + HoldsCar(s.attendant)
            && Sum(s.owners, Waiting()) == s.newCars + Busy(s.attendant) + s.inCharge
  {
    RunKeeps(lots, k);
  }

  /** While any owner is not finished, some thread can step. */
  lemma NoDeadlock(s: Lot, i: nat)
    requires LotInv(s) && i < |s.owners| && !Finished(s.owners[i])
    ensures exists s' :: Step(s, s')
  {
    if s.lock.ByOwner? {
      assert OwnerEnabled(s, s.lock.i);
      assert Step(s, OwnerNext(s, s.lock.i));
    } else if AttendantEnabled(s) {
      assert Step(s, AttendantNext(s));
    } else {
      SumAtLeastOne(s.owners, i, Waiting());
      assert OwnerEnabled(s, i);
      assert Step(s, OwnerNext(s, i));
    }
  }

  /**
   * Every run is short, and one that cannot go on has freed all spots and served everybody for whom there was one:
   * all owners if they are no more than the spots, at least as many as there are spots otherwise.
   */
  lemma RunsEndEmpty(lots: seq<Lot>)
    requires Run(lots)
    ensures |lots| <= 9 * |lots[0].owners| + 1
    ensures var s := lots[|lots| - 1];
            (forall s' :: !Step(s, s')) ==>
              && (forall i :: 0 <= i < |s.owners| ==> Finished(s.owners[i]))
              && s.free == lots[0].max && s.newCars == 0 && s.inCharge == 0 && s.attendant == AwaitingCar
              && (|s.owners| <= lots[0].max ==> forall i :: 0 <= i < |s.owners| ==> s.owners[i].Served?)
              && (|s.owners| > lots[0].max ==> Sum(s.owners, Entered()) >= lots[0].max)
  {
    RunKeeps(lots, |lots| - 1);
    RunRefuses(lots, |lots| - 1);
    var s := lots[|lots| - 1];
    OneLess(s.owners);
    if forall s' :: !Step(s, s') {
      forall i | 0 <= i < |s.owners| ensures Finished(s.owners[i]) {
        if !Finished(s.owners[i]) { NoDeadlock(s, i); }
      }
      SumConstant(s.owners, 0, Unposted());
      SumConstant(s.owners, 0, Waiting());
      if forall i :: 0 <= i < |s.owners| ==> !Refused(s.owners[i]) { AllEntered(s.owners); }
    }
  }
}

/** Both kinds of vehicle: two lots that share nothing. */
module ParkingSystem {
  import opened Parking

  datatype System = System(pickups: Lot, automobiles: Lot)

  ghost predicate SystemInit(s: System) {
    && Init(s.pickups) && Init(s.automobiles)
    && s.pickups.max == MAX_PICKUPS && s.automobiles.max == MAX_AUTOMOBILES
  }

  ghost predicate SystemStep(s: System, s': System) {
    || (Step(s.pickups, s'.pickups) && s'.automobiles == s.automobiles)
    || (Step(s.automobiles, s'.automobiles) && s'.pickups == s.pickups)
  }

  ghost predicate SystemRun(run: seq<System>) {
    run != [] && SystemInit(run[0]) && forall k :: 0 <= k < |run| - 1 ==> SystemStep(run[k], run[k + 1])
  }

  lemma {:induction false} SystemKeeps(run: seq<System>, k: nat)
    requires SystemRun(run) && k < |run|
    ensures LotInv(run[k].pickups) && run[k].pickups.max == MAX_PICKUPS
    ensures LotInv(run[k].automobiles) && run[k].automobiles.max == MAX_AUTOMOBILES
    ensures k + StepsLeft(run[k].pickups) + StepsLeft(run[k].automobiles)
            <= 9 * (|run[0].pickups.owners| + |run[0].automobiles.owners|)
  {
    if k == 0 {
      RunKeeps([run[0].pickups], 0);
      RunKeeps([run[0].automobiles], 0);
    } else {
      hide LotInv, StepsLeft, Step, Init;
      SystemKeeps(run, k - 1);
      if run[k].automobiles == run[k - 1].automobiles && Step(run[k - 1].pickups, run[k].pickups) {
        StepKeeps(run[k - 1].pickups, run[k].pickups);
      } else {
        StepKeeps(run[k - 1].automobiles, run[k].automobiles);
      }
    }
  }

  /** The whole program: spots within bounds, and somebody can move while any owner is unfinished. */
  lemma SystemIsLive(run: seq<System>, k: nat)
    requires SystemRun(run) && k < |run|
    ensures 0 <= run[k].pickups.free <= 4 && 0 <= run[k].automobiles.free <= 8
    ensures (exists i :: 0 <= i < |run[k].pickups.owners| && !Finished(run[k].pickups.owners[i]))
            || (exists i :: 0 <= i < |run[k].automobiles.owners| && !Finished(run[k].automobiles.owners[i]))
            ==> exists s' :: SystemStep(run[k], s')
    ensures |run| <= 9 * (|run[0].pickups.owners| + |run[0].automobiles.owners|) + 1
  {
    SystemKeeps(run, k);
    SystemKeeps(run, |run| - 1);
    var s := run[k];
    if i :| 0 <= i < |s.pickups.owners| && !Finished(s.pickups.owners[i]) {
      NoDeadlock(s.pickups, i);
      var lot :| Step(s.pickups, lot);
      assert SystemStep(s, System(lot, s.automobiles));
    }
    if i :| 0 <= i < |s.automobiles.owners| && !Finished(s.automobiles.owners[i]) {
      NoDeadlock(s.automobiles, i);
      var lot :| Step(s.automobiles, lot);
      assert SystemStep(s, System(s.pickups, lot));
    }
  }
}
