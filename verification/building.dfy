/** The shared state of the simulation: the singleton car, the six floors
    with their FIFO waiting queues, and the invariant every operation keeps. */
module Building {
  import opened Passengers

  /** The car's activity state. */
  datatype State = Offline | Idle | Loading | Up | Down

  /** A floor: its FIFO waiting queue (front at index 0) and the cached
      waiting count the source keeps beside it. */
  datatype Floor = Floor(queue: seq<Passenger>, waitingCount: int)

  /** The singleton car. `passengerCount` is kept separately from the
      onboard list, as in the source. */
  datatype Car = Car(
    state: State,
    currentFloor: int,
    currentWeight: int,
    onboard: seq<Passenger>,
    passengerCount: int,
    totalServiced: int,
    running: bool)

  /** The whole shared state: the car and floors 1..MaxFloors at indices 0..MaxFloors-1. */
  datatype World = World(car: Car, floors: seq<Floor>)

  /** What indexing `floors[current_floor-1]` needs. */
  predicate Shaped(w: World)
  {
    |w.floors| == MaxFloors && 1 <= w.car.currentFloor <= MaxFloors
  }

  /** Floor number `n` is consistent: its count caches its queue length and
      everyone waiting there started there on an acceptable route. */
  predicate FloorOk(f: Floor, n: int)
  {
    && f.waitingCount == |f.queue|
    && forall p :: p in f.queue ==> p.start == n && ValidRoute(p.start, p.dest)
  }

  /** The car's bookkeeping is consistent with its onboard list. */
  predicate CarOk(c: Car)
  {
    && 1 <= c.currentFloor <= MaxFloors
    && c.currentWeight == SumWeights(c.onboard)
    && c.currentWeight <= MaxWeight
    && |c.onboard| <= Capacity
    && c.passengerCount == |c.onboard|
    && c.totalServiced >= 0
    && (c.running <==> c.state != Offline)
    && (c.state == Offline ==> c.onboard == [])
    && forall p :: p in c.onboard ==> 1 <= p.dest <= MaxFloors
  }

  /** The invariant of every reachable state. */
  predicate Valid(w: World)
  {
    && Shaped(w)
    && CarOk(w.car)
    && forall i :: 0 <= i < MaxFloors ==> FloorOk(w.floors[i], i + 1)
  }

  /** The state the module starts in: car offline and empty at floor 1,
      every floor empty. */
  function Initial(): (w: World)
    ensures Valid(w)
    ensures w.car.state == Offline && !w.car.running && w.car.currentFloor == 1
    ensures w.car.onboard == [] && w.car.currentWeight == 0 && w.car.passengerCount == 0 && w.car.totalServiced == 0
    ensures forall i :: 0 <= i < MaxFloors ==> w.floors[i] == Floor([], 0)
  {
    World(Car(Offline, 1, 0, [], 0, 0, false), seq(MaxFloors, _ => Floor([], 0)))
  }

  /** Every passenger waiting on some floor, as a multiset. */
  function WaitingBag(floors: seq<Floor>): multiset<Passenger>
  {
    if |floors| == 0 then multiset{} else multiset(floors[0].queue) + WaitingBag(floors[1..])
  }

  /** Every passenger in the building, waiting or riding. */
  function Population(w: World): multiset<Passenger>
  {
    WaitingBag(w.floors) + multiset(w.car.onboard)
  }

  /** Replacing one floor replaces exactly that floor's queue in the bag. */
  lemma {:induction false} WaitingBagUpdate(floors: seq<Floor>, i: int, f: Floor)
    requires 0 <= i < |floors|
    ensures WaitingBag(floors[i := f]) + multiset(floors[i].queue)
         == WaitingBag(floors) + multiset(f.queue)
    decreases i
  {
    if i == 0 {
      assert floors[i := f][1..] == floors[1..];
    } else {
      var g := floors[i := f];
      var rest := floors[1..];
      assert g[0] == floors[0];
      assert g[1..] == rest[i - 1 := f];
      assert rest[i - 1] == floors[i];
      WaitingBagUpdate(rest, i - 1, f);
      calc {
        WaitingBag(g) + multiset(floors[i].queue);
        multiset(floors[0].queue) + (WaitingBag(rest[i - 1 := f]) + multiset(rest[i - 1].queue));
        multiset(floors[0].queue) + (WaitingBag(rest) + multiset(f.queue));
        WaitingBag(floors) + multiset(f.queue);
      }
    }
  }

  /** Taking the first `k` passengers off floor `i`'s queue removes exactly
      them from the bag. */
  lemma WaitingBagTake(floors: seq<Floor>, i: int, k: int, count: int)
    requires 0 <= i < |floors| && 0 <= k <= |floors[i].queue|
    ensures WaitingBag(floors[i := Floor(floors[i].queue[k..], count)]) + multiset(floors[i].queue[..k])
         == WaitingBag(floors)
  {
    var q := floors[i].queue;
    var g := floors[i := Floor(q[k..], count)];
    WaitingBagUpdate(floors, i, g[i]);
    assert q == q[..k] + q[k..];
    assert multiset(q) == multiset(q[..k]) + multiset(q[k..]);
    var a := WaitingBag(g) + multiset(q[..k]);
    var b := WaitingBag(floors);
    assert a + multiset(q[k..]) == b + multiset(q[k..]);
    forall x
      ensures a[x] == b[x]
    {
      assert (a + multiset(q[k..]))[x] == (b + multiset(q[k..]))[x];
    }
  }

  /** Appending a passenger to floor `i`'s queue adds exactly that
      passenger to the bag. */
  lemma {:induction false} WaitingBagAppend(floors: seq<Floor>, i: int, p: Passenger, count: int)
    requires 0 <= i < |floors|
    ensures WaitingBag(floors[i := Floor(floors[i].queue + [p], count)]) == WaitingBag(floors) + multiset{p}
    decreases i
  {
    var g := floors[i := Floor(floors[i].queue + [p], count)];
    if i == 0 {
      assert g[1..] == floors[1..];
      assert multiset(g[0].queue) == multiset(floors[0].queue) + multiset{p};
    } else {
      var rest := floors[1..];
      assert g[0] == floors[0];
      assert rest[i - 1] == floors[i];
      assert g[1..] == rest[i - 1 := Floor(rest[i - 1].queue + [p], count)];
      WaitingBagAppend(rest, i - 1, p, count);
    }
  }
}
