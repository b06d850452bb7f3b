/** What the gateway calls guarantee beyond their own contracts: they keep
    the invariant, admission adds exactly one passenger, stop is idempotent,
    start's partial reset is harmless, and a written request decodes to the
    class whose letter was written. */
module GatewayProperties {
  import opened Wrappers
  import opened Passengers
  import opened Building
  import opened Gateway

  /** Starting keeps the invariant. */
  lemma StartPreservesValid(w: World)
    requires Valid(w)
    ensures Valid(StartElevator(w).world)
  {
  }

  /** The partial reset of start_elevator is harmless: in a consistent state
      an OFFLINE car is already empty, so the load and onboard list it does
      not reset are 0 and empty, and the passenger count it zeroes was 0. */
  lemma StartResetIsHarmless(w: World)
    requires Valid(w) && w.car.state == Offline
    ensures StartElevator(w).world.car.onboard == []
    ensures StartElevator(w).world.car.currentWeight == 0
    ensures StartElevator(w).world.car.passengerCount == w.car.passengerCount
  {
  }

  /** Stopping keeps the invariant. */
  lemma StopPreservesValid(w: World)
    requires Valid(w)
    ensures Valid(StopElevator(w).world)
  {
  }

  /** Stop only takes effect once nobody is aboard. */
  lemma StopLeavesCarEmpty(w: World)
    requires Valid(w)
    ensures StopElevator(w).world.car.state == Offline ==> StopElevator(w).world.car.onboard == []
    ensures StopElevator(w).ret == 1 <==> w.car.state != Offline && w.car.onboard != []
  {
  }

  /** Stop is idempotent: once it has succeeded, stopping again succeeds
      and changes nothing. */
  lemma StopIdempotent(w: World)
    requires StopElevator(w).ret == 0
    ensures StopElevator(StopElevator(w).world) == StopElevator(w)
  {
  }

  /** Start then stop on an OFFLINE, consistent car succeeds both times and
      comes back to the same state, except that the car now stands at floor 1. */
  lemma StartStopRoundTrip(w: World)
    requires Valid(w) && w.car.state == Offline
    ensures StartElevator(w).ret == 0
    ensures StopElevator(StartElevator(w).world) == Outcome(0, w.(car := w.car.(currentFloor := 1)))
  {
  }

  /** Admission keeps the invariant. */
  lemma AddPassengerPreservesValid(w: World, code: int, start: int, dest: int, allocFails: bool)
    requires Valid(w)
    ensures Valid(AddPassenger(w, code, start, dest, allocFails).world)
  {
    var o := AddPassenger(w, code, start, dest, allocFails);
    if o.ret == 0 {
      assert forall i :: 0 <= i < MaxFloors ==> FloorOk(o.world.floors[i], i + 1) by {
        forall i | 0 <= i < MaxFloors
          ensures FloorOk(o.world.floors[i], i + 1)
        {
          assert FloorOk(w.floors[i], i + 1);
        }
      }
    }
  }

  /** Admission adds exactly the requested passenger to the building, and a
      rejected request adds nobody. */
  lemma AddPassengerConserves(w: World, code: int, start: int, dest: int, allocFails: bool)
    requires |w.floors| == MaxFloors
    ensures
      var o := AddPassenger(w, code, start, dest, allocFails);
      Population(o.world) == Population(w) + (if o.ret == 0 then multiset{Passenger(TypeOfCode(code).value, start, dest)} else multiset{})
  {
    var o := AddPassenger(w, code, start, dest, allocFails);
    if o.ret == 0 {
      var p := Passenger(TypeOfCode(code).value, start, dest);
      var i := start - 1;
      assert o.world.floors == w.floors[i := Floor(w.floors[i].queue + [p], o.world.floors[i].waitingCount)];
      WaitingBagAppend(w.floors, i, p, o.world.floors[i].waitingCount);
    }
  }

  /** A written request "<letter> <start> <dest>", in either case, queues a
      passenger of the class the letter names, exactly as the syscall would. */
  lemma WriteRequestRoundTrip(w: World, t: PassengerType, lower: bool, rest: string, start: int, dest: int)
    requires |w.floors| == MaxFloors
    requires |rest| > 0 && rest[0] == ' '
    requires ValidRoute(start, dest)
    ensures
      var c := if lower then Lower(Letter(t)) else Letter(t);
      var o := ElevatorWrite(w, [c] + rest, Some(FloorPair(start, dest)), false);
      && o.ret == 1 + |rest|
      && o.world == IssueRequest(w, start, dest, CodeOf(t), false).world
      && o.world.floors[start - 1].queue == w.floors[start - 1].queue + [Passenger(t, start, dest)]
  {
    var c := if lower then Lower(Letter(t)) else Letter(t);
    var input := [c] + rest;
    LetterRoundTrip(t);
    var buf := WriteBuffer(input);
    assert buf[0] == c;
    assert |buf| >= 2 && buf[1] == ' ';
    assert Classify(buf) == RequestCommand;
  }

  /** Any character other than f, o, j, s in either case is refused with
      -EINVAL and changes nothing. */
  lemma WriteRejectsUnknownLetter(w: World, c: char, rest: string, scanned: Option<FloorPair>, allocFails: bool)
    requires |w.floors| == MaxFloors
    requires c !in "fFoOjJsS"
    ensures ElevatorWrite(w, [c] + rest, scanned, allocFails) == Outcome(-EINVAL, w)
  {
    var buf := WriteBuffer([c] + rest);
    assert buf[0] == c;
  }
}
