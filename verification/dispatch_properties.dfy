/** What one tick of the control loop guarantees: the floor moves by at most
    one and stays in range, LOADING unloads exactly the riders bound for the
    current floor and boards FIFO up to the first misfit, the invariant is
    preserved, and no passenger is lost or duplicated. */
module DispatchProperties {
  import opened Passengers
  import opened Building
  import opened Dispatch

  /** A stopped car, or one that is OFFLINE, does nothing. */
  lemma TickWhenStopped(w: World)
    requires Shaped(w)
    requires !w.car.running || w.car.state == Offline
    ensures Tick(w) == w
  {
  }

  /** IDLE only decides: the new state is the cascade's choice and nothing
      else changes, in particular the floor. */
  lemma TickIdle(w: World)
    requires Shaped(w) && w.car.running && w.car.state == Idle
    ensures Tick(w).car.state == IdleDecision(w)
    ensures Tick(w).car.currentFloor == w.car.currentFloor
    ensures Tick(w).car.onboard == w.car.onboard && Tick(w).floors == w.floors
    ensures Tick(w).car.currentWeight == w.car.currentWeight
    ensures Tick(w).car.passengerCount == w.car.passengerCount
  {
  }

  /** UP adds exactly one floor below the top floor, DOWN subtracts exactly
      one above the bottom floor; at a boundary the floor is unchanged. Both
      end in IDLE with passengers untouched. */
  lemma TickMove(w: World)
    requires Shaped(w) && w.car.running && w.car.state in {Up, Down}
    ensures Tick(w).car.state == Idle
    ensures w.car.state == Up && w.car.currentFloor < MaxFloors ==> Tick(w).car.currentFloor == w.car.currentFloor + 1
    ensures w.car.state == Down && w.car.currentFloor > 1 ==> Tick(w).car.currentFloor == w.car.currentFloor - 1
    ensures w.car.state == Up && w.car.currentFloor == MaxFloors ==> Tick(w).car.currentFloor == MaxFloors
    ensures w.car.state == Down && w.car.currentFloor == 1 ==> Tick(w).car.currentFloor == 1
    ensures Tick(w).car.onboard == w.car.onboard && Tick(w).floors == w.floors
  {
  }

  /** How many passengers the LOADING tick boards at the current floor. */
  function Boarded(w: World): nat
    requires Shaped(w)
  {
    var f := w.car.currentFloor;
    var leaving := Leaving(w.car.onboard, f);
    Board(Staying(w.car.onboard, f), w.car.currentWeight - SumWeights(leaving),
          w.car.passengerCount - |leaving|, w.floors[f - 1].queue).loaded
  }

  /** `w'` is `w` after a LOADING pass that boarded `k` passengers. Unload:
      exactly the riders bound for this floor leave, the others keep their
      order, and the serviced counter and the count move by the number that
      left. Load: the first `k` of the floor's queue move to the tail of the
      onboard list, the waiting count drops by `k`, the load grows by their
      weight, and boarding stopped only because the car was full, the queue
      was empty, or the next passenger would overload it. Nothing else
      changes, and the car is IDLE again. */
  predicate LoadedFrom(w: World, w': World, k: int)
    requires Shaped(w)
  {
    var f := w.car.currentFloor;
    var floor := w.floors[f - 1];
    var q := floor.queue;
    var leaving := Leaving(w.car.onboard, f);
    var weight := w.car.currentWeight - SumWeights(leaving);
    var count := w.car.passengerCount - |leaving|;
    && 0 <= k <= |q|
    && w'.floors == w.floors[f - 1 := Floor(q[k..], floor.waitingCount - k)]
    && w'.car == w.car.(state := Idle, currentWeight := weight + SumWeights(q[..k]),
                        onboard := Staying(w.car.onboard, f) + q[..k],
                        passengerCount := count + k,
                        totalServiced := w.car.totalServiced + |leaving|)
    && (k < |q| ==> count + k >= Capacity || weight + SumWeights(q[..k]) + Weight(q[k].ptype) > MaxWeight)
    && (weight <= MaxWeight ==> weight + SumWeights(q[..k]) <= MaxWeight)
    && (count <= Capacity ==> count + k <= Capacity)
  }

  /** The floors after the LOADING case: the current floor's queue loses
      the boarded prefix and its count drops by as many. */
  lemma LoadingTickFloors(w: World)
    requires Shaped(w)
    ensures
      var f := w.car.currentFloor;
      var floor := w.floors[f - 1];
      var k := Boarded(w);
      && 0 <= k <= |floor.queue|
      && LoadingTick(w).floors == w.floors[f - 1 := Floor(floor.queue[k..], floor.waitingCount - k)]
  {
  }

  /** The car after the LOADING case: the leavers are gone, the boarded
      prefix is at the tail, and load, count and serviced counter follow. */
  lemma LoadingTickCar(w: World)
    requires Shaped(w)
    ensures
      var f := w.car.currentFloor;
      var q := w.floors[f - 1].queue;
      var k := Boarded(w);
      var leaving := Leaving(w.car.onboard, f);
      && 0 <= k <= |q|
      && LoadingTick(w).car
         == w.car.(state := Idle, currentWeight := w.car.currentWeight - SumWeights(leaving) + SumWeights(q[..k]),
                   onboard := Staying(w.car.onboard, f) + q[..k],
                   passengerCount := w.car.passengerCount - |leaving| + k,
                   totalServiced := w.car.totalServiced + |leaving|)
  {
  }

  /** Boarding in the LOADING case stops only at a full car, an empty
      queue, or a passenger who would overload the car, and keeps limits. */
  lemma LoadingTickStops(w: World)
    requires Shaped(w)
    ensures
      var f := w.car.currentFloor;
      var q := w.floors[f - 1].queue;
      var k := Boarded(w);
      var leaving := Leaving(w.car.onboard, f);
      var weight := w.car.currentWeight - SumWeights(leaving);
      var count := w.car.passengerCount - |leaving|;
      && 0 <= k <= |q|
      && (k < |q| ==> count + k >= Capacity || weight + SumWeights(q[..k]) + Weight(q[k].ptype) > MaxWeight)
      && (weight <= MaxWeight ==> weight + SumWeights(q[..k]) <= MaxWeight)
      && (count <= Capacity ==> count + k <= Capacity)
  {
    var f := w.car.currentFloor;
    var leaving := Leaving(w.car.onboard, f);
    var q := w.floors[f - 1].queue;
    var b := Board(Staying(w.car.onboard, f), w.car.currentWeight - SumWeights(leaving),
                   w.car.passengerCount - |leaving|, q);
    assert b.loaded < |q| ==> b.queue[0] == q[b.loaded];
  }

  /** The LOADING case is exactly the unload-then-board pass described by
      `LoadedFrom`. */
  lemma LoadingTickIsLoaded(w: World)
    requires Shaped(w)
    ensures LoadedFrom(w, LoadingTick(w), Boarded(w))
  {
    LoadingTickFloors(w);
    LoadingTickCar(w);
    LoadingTickStops(w);
  }

  /** The LOADING tick is exactly the unload-then-board pass described by
      `LoadedFrom`. */
  lemma LoadingTickShape(w: World)
    requires Shaped(w) && w.car.running && w.car.state == Loading
    ensures LoadedFrom(w, Tick(w), Boarded(w))
  {
    assert Tick(w) == LoadingTick(w);
    LoadingTickIsLoaded(w);
  }

  /** A LOADING pass keeps the car's bookkeeping consistent. */
  lemma LoadedBounds(w: World, w': World, k: int)
    requires Shaped(w) && CarOk(w.car) && LoadedFrom(w, w', k)
    ensures w'.car.currentWeight == SumWeights(w'.car.onboard) <= MaxWeight
    ensures w'.car.passengerCount == |w'.car.onboard| <= Capacity
  {
    var f := w.car.currentFloor;
    var q := w.floors[f - 1].queue;
    var staying := Staying(w.car.onboard, f);
    SplitAtFloor(w.car.onboard, f);
    SplitWeightAtFloor(w.car.onboard, f);
    SumWeightsAppend(staying, q[..k]);
  }

  /** The LOADING tick keeps the car's bookkeeping consistent: the load is
      the riders' total weight and within MaxWeight, the count is the number
      of riders and within Capacity. */
  lemma LoadingTickBounds(w: World)
    requires Shaped(w) && CarOk(w.car) && w.car.state == Loading
    ensures Tick(w).car.currentWeight == SumWeights(Tick(w).car.onboard)
    ensures Tick(w).car.currentWeight <= MaxWeight
    ensures Tick(w).car.passengerCount == |Tick(w).car.onboard| <= Capacity
  {
    LoadingTickShape(w);
    LoadedBounds(w, Tick(w), Boarded(w));
  }

  /** Appending newcomers who started at floor `f` on a valid route to
      riders none of whom is bound for `f` leaves nobody bound for `f`. */
  lemma BoardingKeepsNobodyBound(staying: seq<Passenger>, q: seq<Passenger>, k: int, f: int)
    requires 0 <= k <= |q|
    requires forall p :: p in staying ==> p.dest != f
    requires forall p :: p in q ==> p.start == f && ValidRoute(p.start, p.dest)
    ensures !HasDestinationAt(staying + q[..k], f)
  {
    var onb := staying + q[..k];
    forall i | 0 <= i < |onb|
      ensures onb[i].dest != f
    {
      if i >= |staying| {
        assert onb[i] == q[i - |staying|];
      } else {
        assert onb[i] in staying;
      }
    }
  }

  /** After LOADING nobody aboard is bound for the current floor: those who
      were have left, and newcomers started here on a route to elsewhere. */
  lemma LoadingLeavesNobodyBoundHere(w: World)
    requires Valid(w) && w.car.state == Loading
    ensures !HasDestinationAt(Tick(w).car.onboard, w.car.currentFloor)
  {
    LoadingTickShape(w);
    var f := w.car.currentFloor;
    assert FloorOk(w.floors[f - 1], f);
    BoardingKeepsNobodyBound(Staying(w.car.onboard, f), w.floors[f - 1].queue, Boarded(w), f);
  }

  /** A LOADING pass keeps every floor's queue consistent: the floor it
      boards from keeps a suffix of its queue, and no other floor changes. */
  lemma LoadedFloorsOk(w: World, w': World, k: int)
    requires Valid(w) && LoadedFrom(w, w', k)
    ensures |w'.floors| == MaxFloors
    ensures forall i :: 0 <= i < MaxFloors ==> FloorOk(w'.floors[i], i + 1)
  {
    var f := w.car.currentFloor;
    var q := w.floors[f - 1].queue;
    assert FloorOk(w.floors[f - 1], f);
    assert FloorOk(w'.floors[f - 1], f) by {
      forall p | p in w'.floors[f - 1].queue
        ensures p.start == f && ValidRoute(p.start, p.dest)
      {
        assert p in q;
      }
    }
    assert forall i :: 0 <= i < MaxFloors && i != f - 1 ==> w'.floors[i] == w.floors[i];
  }

  /** Riders who stay were aboard already, and newcomers come from a queue
      of valid routes, so every rider is bound for a real floor. */
  lemma BoardingKeepsRoutes(onboard: seq<Passenger>, f: int, q: seq<Passenger>, k: int)
    requires 0 <= k <= |q|
    requires forall p :: p in onboard ==> 1 <= p.dest <= MaxFloors
    requires forall p :: p in q ==> ValidRoute(p.start, p.dest)
    ensures forall p :: p in Staying(onboard, f) + q[..k] ==> 1 <= p.dest <= MaxFloors
  {
    var staying := Staying(onboard, f);
    SplitAtFloor(onboard, f);
    forall p | p in staying + q[..k]
      ensures 1 <= p.dest <= MaxFloors
    {
      if p in staying {
        assert p in multiset(staying);
        assert p in multiset(onboard);
      } else {
        assert p in q;
      }
    }
  }

  /** A LOADING pass keeps the car consistent: bookkeeping as in
      `LoadedBounds`, and every rider, old or new, bound for a real floor. */
  lemma LoadedCarOk(w: World, w': World, k: int)
    requires Valid(w) && w.car.state == Loading && LoadedFrom(w, w', k)
    ensures CarOk(w'.car)
  {
    LoadedBounds(w, w', k);
    var f := w.car.currentFloor;
    assert FloorOk(w.floors[f - 1], f);
    BoardingKeepsRoutes(w.car.onboard, f, w.floors[f - 1].queue, k);
  }

  /** A LOADING pass from a consistent state gives a consistent state. */
  lemma LoadedValid(w: World, w': World, k: int)
    requires Valid(w) && w.car.state == Loading && LoadedFrom(w, w', k)
    ensures Valid(w')
  {
    LoadedFloorsOk(w, w', k);
    LoadedCarOk(w, w', k);
  }

  /** The LOADING tick keeps the invariant. */
  lemma LoadingPreservesValid(w: World)
    requires Valid(w) && w.car.state == Loading
    ensures Valid(Tick(w))
  {
    LoadingTickShape(w);
    LoadedValid(w, Tick(w), Boarded(w));
  }

  /** Every tick keeps the invariant: weight is the sum of the riders'
      weights and at most MaxWeight, at most Capacity riders, waiting counts
      equal queue lengths, and the floor stays within 1..MaxFloors. */
  lemma TickPreservesValid(w: World)
    requires Valid(w)
    ensures Valid(Tick(w))
  {
    if w.car.running && w.car.state == Loading {
      LoadingPreservesValid(w);
    } else {
      assert Tick(w).floors == w.floors;
      assert Tick(w).car.onboard == w.car.onboard;
    }
  }

  /** A LOADING pass loses and duplicates nobody except the riders who
      leave. */
  lemma LoadedConserves(w: World, w': World, k: int)
    requires Shaped(w) && LoadedFrom(w, w', k)
    ensures Population(w) == Population(w') + multiset(Leaving(w.car.onboard, w.car.currentFloor))
  {
    var f := w.car.currentFloor;
    var q := w.floors[f - 1].queue;
    var staying := Staying(w.car.onboard, f);
    var leaving := Leaving(w.car.onboard, f);
    SplitAtFloor(w.car.onboard, f);
    WaitingBagTake(w.floors, f - 1, k, w'.floors[f - 1].waitingCount);
    var bag := WaitingBag(w.floors);
    var bag' := WaitingBag(w'.floors);
    assert bag' + multiset(q[..k]) == bag;
    assert multiset(w'.car.onboard) == multiset(staying) + multiset(q[..k]);
    calc {
      Population(w') + multiset(leaving);
      bag' + (multiset(staying) + multiset(q[..k])) + multiset(leaving);
      (bag' + multiset(q[..k])) + (multiset(staying) + multiset(leaving));
      bag + multiset(w.car.onboard);
    }
  }

  /** The LOADING tick moves passengers between the floor's queue and the
      car without losing or duplicating anyone, except the riders who leave. */
  lemma LoadingConserves(w: World)
    requires Shaped(w) && w.car.running && w.car.state == Loading
    ensures Population(w) == Population(Tick(w)) + multiset(Leaving(w.car.onboard, w.car.currentFloor))
  {
    LoadingTickShape(w);
    LoadedConserves(w, Tick(w), Boarded(w));
  }

  /** No passenger is lost or duplicated by a tick: everyone in the building
      beforehand is still waiting, still riding, or was just served at their
      destination, and the serviced counter grows by exactly that number. */
  lemma TickConservesPassengers(w: World)
    requires Shaped(w)
    ensures Population(w) == Population(Tick(w)) + multiset(Served(w))
    ensures Tick(w).car.totalServiced == w.car.totalServiced + |Served(w)|
    ensures forall p :: p in Served(w) ==> p.dest == w.car.currentFloor
  {
    if w.car.running && w.car.state == Loading {
      LoadingConserves(w);
      LoadingTickShape(w);
    }
  }
}
