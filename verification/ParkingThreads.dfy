/** The owner and attendant code over the shared counter and semaphores, run under any schedule. */
module ParkingThreads {
  import opened Parking
  import opened Sums

  class ParkingLot {
    const max: nat
    var mFree: int
    var mutex: Holder
    var newCar: nat             // sem_t newPickup / newAutomobile
    var inChargeFor: nat        // sem_t inChargeforPickup / inChargeforAutomobile
    const owners: array<Owner>
    var attendant: Attendant

    function View(): Lot
      reads this, owners
    {
      Lot(max, mFree, mutex, newCar, inChargeFor, owners[..], attendant)
    }

    ghost predicate Valid()
      reads this, owners
    {
      LotInv(View())
    }

    constructor (max: nat, ownerThreads: nat)
      ensures Init(View()) && Valid() && fresh(owners) && this.max == max && owners.Length == ownerThreads
    {
      this.max := max;
      mFree := max;
      mutex := Nobody;
      newCar, inChargeFor := 0, 0;
      owners := new Owner[ownerThreads](_ => Arriving);
      attendant := AwaitingCar;
      new;
      RunKeeps([View()], 0);
    }

    // ----- carOwner and carAttendant, up to the next point where another thread may step -----

    method OwnerLocks(i: nat)
      requires Valid() && i < owners.Length && owners[i].Arriving? && mutex == Nobody
      modifies this`mutex, owners
      ensures Valid() && View() == OwnerNext(old(View()), i)
    {
      OwnerKeeps(View(), i);
      mutex := ByOwner(i);
      owners[i] := Deciding;
    }

    /** Holding the mutex: take a spot if there is one. */
    method OwnerDecides(i: nat)
      requires Valid() && i < owners.Length && owners[i].Deciding?
      modifies this`mFree, owners
      ensures Valid() && View() == OwnerNext(old(View()), i)
    {
      OwnerKeeps(View(), i);
      if mFree > 0 {
        mFree := mFree - 1;
        owners[i] := InLot;
      } else {
        owners[i] := Leaving;
      }
    }

    method OwnerUnlocks(i: nat)
      requires Valid() && i < owners.Length && (owners[i].InLot? || owners[i].Leaving?)
      modifies this`mutex, owners
      ensures Valid() && View() == OwnerNext(old(View()), i)
    {
      OwnerKeeps(View(), i);
      mutex := Nobody;
      owners[i] := if owners[i].InLot? then Parked else TurnedAway;
    }

    /** sem_post of `new`. */
    method OwnerPosts(i: nat)
      requires Valid() && i < owners.Length && owners[i].Parked?
      modifies this`newCar, owners
      ensures Valid() && View() == OwnerNext(old(View()), i)
    {
      OwnerKeeps(View(), i);
      newCar := newCar + 1;
      owners[i] := WaitingValet;
    }

    /** Return from sem_wait of `inCharge`. */
    method OwnerIsServed(i: nat)
      requires Valid() && i < owners.Length && owners[i].WaitingValet? && inChargeFor > 0
      modifies this`inChargeFor, owners
      ensures Valid() && View() == OwnerNext(old(View()), i)
    {
      OwnerKeeps(View(), i);
      inChargeFor := inChargeFor - 1;
      owners[i] := Served;
    }

    /** Return from sem_wait of `new`. */
    method AttendantFetches()
      requires Valid() && attendant.AwaitingCar? && newCar > 0
      modifies this`newCar, this`attendant
      ensures Valid() && View() == AttendantNext(old(View()))
    {
      AttendantKeeps(View());
      newCar := newCar - 1;
      attendant := Fetching;
    }

    method AttendantLocks()
      requires Valid() && attendant.Fetching? && mutex == Nobody
      modifies this`mutex, this`attendant
      ensures Valid() && View() == AttendantNext(old(View()))
    {
      AttendantKeeps(View());
      mutex := ByAttendant;
      attendant := Freeing;
    }

    /** Holding the mutex: the spot is free again, and unlock. */
    method AttendantFrees()
      requires Valid() && attendant.Freeing?
      modifies this`mFree, this`mutex, this`attendant
      ensures Valid() && View() == AttendantNext(old(View()))
    {
      AttendantKeeps(View());
      mFree := mFree + 1;
      mutex := Nobody;
      attendant := Reporting;
    }

    /** sem_post of `inCharge`. */
    method AttendantReports()
      requires Valid() && attendant.Reporting?
      modifies this`inChargeFor, this`attendant
      ensures Valid() && View() == AttendantNext(old(View()))
    {
      AttendantKeeps(View());
      inChargeFor := inChargeFor + 1;
      attendant := AwaitingCar;
    }

    // ----- the threads together -----

    /** Thread `k` is owner `k`, or the attendant after the owners. */
    predicate CanStep(k: nat)
      reads this, owners
    {
      if k < owners.Length then OwnerEnabled(View(), k) else k == owners.Length && AttendantEnabled(View())
    }

    method StepOf(k: nat)
      requires Valid() && CanStep(k)
      modifies this, owners
      ensures Valid() && Step(old(View()), View())
    {
      if k == owners.Length {
        match attendant {
          case AwaitingCar => AttendantFetches();
          case Fetching => AttendantLocks();
          case Freeing => AttendantFrees();
          case Reporting => AttendantReports();
        }
      } else {
        match owners[k] {
          case Arriving => OwnerLocks(k);
          case Deciding => OwnerDecides(k);
          case InLot => OwnerUnlocks(k);
          case Leaving => OwnerUnlocks(k);
          case Parked => OwnerPosts(k);
          case WaitingValet => OwnerIsServed(k);
        }
      }
    }

    /** A thread that can step, `wanted` if it can. */
    method Choose(wanted: nat) returns (found: bool, k: nat)
      ensures found ==> CanStep(k)
      ensures CanStep(wanted) ==> found && k == wanted
      ensures !found ==> forall s :: !Step(View(), s)
    {
      if CanStep(wanted) { return true, wanted; }
      k := 0;
      while k <= owners.Length
        invariant 0 <= k <= owners.Length + 1
        invariant forall j :: 0 <= j < k ==> !CanStep(j)
      {
        if CanStep(k) { return true, k; }
        k := k + 1;
      }
      found := false;
      assert !CanStep(owners.Length);
      forall i: nat ensures !OwnerEnabled(View(), i) {
        assert i < owners.Length ==> !CanStep(i);
      }
    }

    /**
     * All threads under any schedule: `wants(n)` names the thread to step next, somebody else steps where
     * that one cannot.  The program comes to rest, all spots are free, and everybody has been served, or with more
     * owners than spots as many as there are spots at least, the others turned away.
     */
    method Simulate(wants: nat -> nat) returns (ghost lots: seq<Lot>)
      requires Init(View())
      modifies this, owners
      ensures Run(lots) && lots[0] == old(View()) && lots[|lots| - 1] == View()
      ensures forall i :: 0 <= i < owners.Length ==> Finished(owners[i])
      ensures owners.Length <= max ==> forall i :: 0 <= i < owners.Length ==> owners[i].Served?
      ensures owners.Length > max ==> Sum(owners[..], Entered()) >= max
      ensures mFree == max && newCar == 0 && inChargeFor == 0 && attendant == AwaitingCar
    {
      lots := [View()];
      RunKeeps(lots, 0);
      var n := 0;
      while true
        invariant Run(lots) && lots[0] == old(View()) && lots[|lots| - 1] == View()
        invariant Valid()
        decreases StepsLeft(View())
      {
        var found, k := Choose(wants(n));
        if !found { break; }
        ghost var before := View();
        StepOf(k);
        StepKeeps(before, View());
        lots := lots + [View()];
        n := n + 1;
      }
      RunsEndEmpty(lots);
      RunKeeps(lots, |lots| - 1);
    }
  }
}
