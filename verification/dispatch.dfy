/** The control loop: one tick of the elevator thread, i.e. one pass through
    the state switch, taken as a single atomic step. The IDLE state decides
    where to go next by a fixed priority cascade; LOADING unloads and then
    boards FIFO; UP and DOWN move one floor. */
module Dispatch {
  import opened Passengers
  import opened Building

  // ---------------------------------------------------------------------
  // The scans IDLE performs, written as the source's early-exit loops.
  // ---------------------------------------------------------------------

  /** First priority scan: does some rider want to get off at floor `f`? */
  function HasDestinationAt(s: seq<Passenger>, f: int): (b: bool)
    ensures b <==> exists i :: 0 <= i < |s| && s[i].dest == f
  {
    if |s| == 0 then false
    else if s[0].dest == f then true
    else
      assert forall i :: 1 <= i < |s| ==> s[1..][i - 1] == s[i];
      HasDestinationAt(s[1..], f)
  }

  /** Which way the riders pull the car. */
  datatype Heading = Level | Rising | Falling

  /** `s[i]` is the first rider whose destination is not floor `f`. */
  ghost predicate FirstLeaver(s: seq<Passenger>, f: int, i: int)
  {
    && 0 <= i < |s|
    && s[i].dest != f
    && forall j :: 0 <= j < i ==> s[j].dest == f
  }

  /** Third priority scan: the first rider whose destination differs from
      floor `f` decides the direction; first found wins, not the majority. */
  function HeadingOf(s: seq<Passenger>, f: int): (h: Heading)
    ensures h == Level <==> forall i :: 0 <= i < |s| ==> s[i].dest == f
    ensures h == Rising <==> exists i :: FirstLeaver(s, f, i) && s[i].dest > f
    ensures h == Falling <==> exists i :: FirstLeaver(s, f, i) && s[i].dest < f
  {
    if |s| == 0 then Level
    else if s[0].dest > f then
      assert FirstLeaver(s, f, 0);
      Rising
    else if s[0].dest < f then
      assert FirstLeaver(s, f, 0);
      Falling
    else
      var h := HeadingOf(s[1..], f);
      assert forall i :: 1 <= i < |s| ==> s[1..][i - 1] == s[i];
      assert forall i :: FirstLeaver(s[1..], f, i) ==> FirstLeaver(s, f, i + 1);
      assert forall i :: FirstLeaver(s, f, i) ==> i >= 1 && FirstLeaver(s[1..], f, i - 1);
      h
  }

  /** Fourth priority, upward half: floors `lo`, `lo`+1, .., MaxFloors in
      ascending order; is anyone waiting on one of them? (Floor n is at
      index n-1.) */
  function WaitingFrom(floors: seq<Floor>, lo: int): (b: bool)
    requires |floors| == MaxFloors && 1 <= lo
    ensures b <==> exists i :: lo - 1 <= i < MaxFloors && floors[i].waitingCount > 0
    decreases MaxFloors - lo
  {
    if lo > MaxFloors then false
    else floors[lo - 1].waitingCount > 0 || WaitingFrom(floors, lo + 1)
  }

  /** Fourth priority, downward half: floors `hi`, `hi`-1, .., 1 in
      descending order; is anyone waiting on one of them? */
  function WaitingDownFrom(floors: seq<Floor>, hi: int): (b: bool)
    requires |floors| == MaxFloors && hi <= MaxFloors
    ensures b <==> exists i :: 0 <= i < hi && floors[i].waitingCount > 0
    decreases hi
  {
    if hi < 1 then false
    else floors[hi - 1].waitingCount > 0 || WaitingDownFrom(floors, hi - 1)
  }

  // ---------------------------------------------------------------------
  // The IDLE cascade, stated independently of the scans.
  // ---------------------------------------------------------------------

  /** Some rider's destination is the current floor. */
  ghost predicate MustUnload(w: World)
  {
    exists i :: 0 <= i < |w.car.onboard| && w.car.onboard[i].dest == w.car.currentFloor
  }

  /** The car has a free place and the passenger at the front of the current
      floor's queue would not push the load past MaxWeight. */
  predicate FrontFits(w: World)
    requires Shaped(w)
  {
    var q := w.floors[w.car.currentFloor - 1].queue;
    && w.car.passengerCount < Capacity
    && |q| > 0
    && w.car.currentWeight + Weight(q[0].ptype) <= MaxWeight
  }

  /** Every rider's destination is the current floor (vacuous with no riders). */
  ghost predicate RidersSettled(w: World)
  {
    forall i :: 0 <= i < |w.car.onboard| ==> w.car.onboard[i].dest == w.car.currentFloor
  }

  /** The first rider not bound for the current floor is bound above it. */
  ghost predicate RidersLeadUp(w: World)
  {
    exists i :: FirstLeaver(w.car.onboard, w.car.currentFloor, i) && w.car.onboard[i].dest > w.car.currentFloor
  }

  /** The first rider not bound for the current floor is bound below it. */
  ghost predicate RidersLeadDown(w: World)
  {
    exists i :: FirstLeaver(w.car.onboard, w.car.currentFloor, i) && w.car.onboard[i].dest < w.car.currentFloor
  }

  /** Some floor strictly above the car has a positive waiting count
      (floor n is at index n-1). */
  ghost predicate WaitingAbove(w: World)
    requires Shaped(w)
  {
    exists i :: w.car.currentFloor <= i < MaxFloors && w.floors[i].waitingCount > 0
  }

  /** Some floor strictly below the car has a positive waiting count. */
  ghost predicate WaitingBelow(w: World)
    requires Shaped(w)
  {
    exists i :: 0 <= i < w.car.currentFloor - 1 && w.floors[i].waitingCount > 0
  }

  /** The IDLE decision: first match wins, in the order unload, load the
      front waiter, follow the first rider, waiting above, waiting below. */
  function IdleDecision(w: World): (next: State)
    requires Shaped(w)
    ensures next == Loading <==> MustUnload(w) || FrontFits(w)
    ensures next == Up <==>
      !MustUnload(w) && !FrontFits(w) && (RidersLeadUp(w) || (RidersSettled(w) && WaitingAbove(w)))
    ensures next == Down <==>
      !MustUnload(w) && !FrontFits(w)
      && (RidersLeadDown(w) || (RidersSettled(w) && !WaitingAbove(w) && WaitingBelow(w)))
    ensures next == Idle <==>
      !MustUnload(w) && !FrontFits(w) && RidersSettled(w) && !WaitingAbove(w) && !WaitingBelow(w)
  {
    var car := w.car;
    if HasDestinationAt(car.onboard, car.currentFloor) || FrontFits(w) then Loading
    else match HeadingOf(car.onboard, car.currentFloor)
      case Rising => Up
      case Falling => Down
      case Level =>
        if WaitingFrom(w.floors, car.currentFloor + 1) then Up
        else if WaitingDownFrom(w.floors, car.currentFloor - 1) then Down
        else Idle
  }

  // ---------------------------------------------------------------------
  // LOADING: the unload phase.
  // ---------------------------------------------------------------------

  /** The riders that stay aboard at floor `f`, in their original order. */
  function Staying(s: seq<Passenger>, f: int): (r: seq<Passenger>)
    ensures forall p :: p in r ==> p.dest != f
    ensures forall i :: 0 <= i < |s| && s[i].dest != f ==> s[i] in r
  {
    if |s| == 0 then []
    else (if s[0].dest != f then [s[0]] else []) + Staying(s[1..], f)
  }

  /** The riders that get off at floor `f`, in their original order. */
  function Leaving(s: seq<Passenger>, f: int): (r: seq<Passenger>)
    ensures forall p :: p in r ==> p.dest == f
    ensures forall i :: 0 <= i < |s| && s[i].dest == f ==> s[i] in r
  {
    if |s| == 0 then []
    else (if s[0].dest == f then [s[0]] else []) + Leaving(s[1..], f)
  }

  /** Unloading splits the riders in two: nobody is lost or duplicated, and
      so the count splits accordingly. */
  lemma {:induction false} SplitAtFloor(s: seq<Passenger>, f: int)
    ensures multiset(s) == multiset(Staying(s, f)) + multiset(Leaving(s, f))
    ensures |s| == |Staying(s, f)| + |Leaving(s, f)|
  {
    SplitBagAtFloor(s, f);
    assert |multiset(s)| == |s|;
  }

  /** The multiset half of `SplitAtFloor`, by induction on the riders. */
  lemma {:induction false} SplitBagAtFloor(s: seq<Passenger>, f: int)
    ensures multiset(s) == multiset(Staying(s, f)) + multiset(Leaving(s, f))
  {
    if |s| > 0 {
      SplitBagAtFloor(s[1..], f);
      assert s == [s[0]] + s[1..];
      assert multiset(s) == multiset{s[0]} + multiset(s[1..]);
    }
  }

  /** The weight of the riders splits the same way. */
  lemma {:induction false} SplitWeightAtFloor(s: seq<Passenger>, f: int)
    ensures SumWeights(s) == SumWeights(Staying(s, f)) + SumWeights(Leaving(s, f))
  {
    if |s| > 0 {
      SplitWeightAtFloor(s[1..], f);
      var head := if s[0].dest != f then [s[0]] else [];
      var other := if s[0].dest == f then [s[0]] else [];
      SumWeightsAppend(head, Staying(s[1..], f));
      SumWeightsAppend(other, Leaving(s[1..], f));
    }
  }

  /** Staying is a filter: it distributes over concatenation, so the riders
      who stay keep their relative order. */
  lemma {:induction false} StayingAppend(a: seq<Passenger>, b: seq<Passenger>, f: int)
    ensures Staying(a + b, f) == Staying(a, f) + Staying(b, f)
    decreases |a|
  {
    if |a| == 0 {
      assert a + b == b;
    } else {
      assert (a + b)[0] == a[0];
      assert (a + b)[1..] == a[1..] + b;
      StayingAppend(a[1..], b, f);
    }
  }

  /** With nobody bound for floor `f`, unloading changes nothing. */
  lemma {:induction false} StayingWhenNoneLeave(s: seq<Passenger>, f: int)
    requires forall i :: 0 <= i < |s| ==> s[i].dest != f
    ensures Staying(s, f) == s
    ensures Leaving(s, f) == []
  {
    if |s| > 0 {
      StayingWhenNoneLeave(s[1..], f);
      assert s == [s[0]] + s[1..];
    }
  }

  // ---------------------------------------------------------------------
  // LOADING: the load phase.
  // ---------------------------------------------------------------------

  /** Outcome of the boarding loop: the new onboard list, load and count,
      what is left of the floor's queue, and how many boarded. */
  datatype Boarding = Boarding(onboard: seq<Passenger>, weight: int, count: int, queue: seq<Passenger>, loaded: nat)

  /** Boarding the front passenger and then a k-prefix of the rest is
      boarding a (k+1)-prefix. */
  lemma BoardStep(onboard: seq<Passenger>, queue: seq<Passenger>, k: nat)
    requires 0 < |queue| && k <= |queue| - 1
    ensures queue[1..][k..] == queue[k + 1..]
    ensures onboard + [queue[0]] + queue[1..][..k] == onboard + queue[..k + 1]
    ensures SumWeights(queue[..k + 1]) == Weight(queue[0].ptype) + SumWeights(queue[1..][..k])
  {
    assert queue[..k + 1] == [queue[0]] + queue[1..][..k];
    assert queue[..k + 1][1..] == queue[1..][..k];
  }

  /** The boarding loop: move the front of the queue to the tail of the
      onboard list while there is a free place and the front passenger fits;
      stop at the first one that does not fit. */
  function Board(onboard: seq<Passenger>, weight: int, count: int, queue: seq<Passenger>): (b: Boarding)
    ensures b.loaded <= |queue|
    ensures b.queue == queue[b.loaded..]
    ensures b.onboard == onboard + queue[..b.loaded]
    ensures b.weight == weight + SumWeights(queue[..b.loaded])
    ensures b.count == count + b.loaded
    ensures b.count >= Capacity || b.queue == [] || b.weight + Weight(b.queue[0].ptype) > MaxWeight
    ensures weight <= MaxWeight ==> b.weight <= MaxWeight
    ensures count <= Capacity ==> b.count <= Capacity
    decreases |queue|
  {
    if count < Capacity && |queue| > 0 && weight + Weight(queue[0].ptype) <= MaxWeight then
      var rest := Board(onboard + [queue[0]], weight + Weight(queue[0].ptype), count + 1, queue[1..]);
      var k := rest.loaded;
      BoardStep(onboard, queue, k);
      rest.(loaded := k + 1)
    else
      assert queue[..0] == [];
      Boarding(onboard, weight, count, queue, 0)
  }

  // ---------------------------------------------------------------------
  // The tick.
  // ---------------------------------------------------------------------

  /** The riders a tick from `w` delivers: those bound for the current floor
      when the car is running in LOADING, nobody otherwise. */
  function Served(w: World): seq<Passenger>
  {
    if w.car.running && w.car.state == Loading then Leaving(w.car.onboard, w.car.currentFloor) else []
  }

  /** The LOADING case: unload everyone bound for this floor, then board FIFO,
      then return to IDLE. */
  function LoadingTick(w: World): (w': World)
    requires Shaped(w)
    ensures w'.car.state == Idle && w'.car.currentFloor == w.car.currentFloor
    ensures w'.car.running == w.car.running
    ensures |w'.floors| == MaxFloors
    ensures forall i :: 0 <= i < MaxFloors && i != w.car.currentFloor - 1 ==> w'.floors[i] == w.floors[i]
  {
    var car := w.car;
    var f := car.currentFloor;
    var leaving := Leaving(car.onboard, f);
    var floor := w.floors[f - 1];
    var b := Board(Staying(car.onboard, f), car.currentWeight - SumWeights(leaving),
                   car.passengerCount - |leaving|, floor.queue);
    World(
      car.(state := Idle, currentWeight := b.weight, onboard := b.onboard,
           passengerCount := b.count, totalServiced := car.totalServiced + |leaving|),
      w.floors[f - 1 := Floor(b.queue, floor.waitingCount - b.loaded)])
  }

  /** One pass of the control loop. Offline or stopped: nothing happens.
      IDLE: decide. LOADING: unload and board. UP/DOWN: move one floor if
      not at the boundary. Every state but IDLE returns to IDLE. */
  function Tick(w: World): (w': World)
    requires Shaped(w)
    ensures Shaped(w')
    ensures w'.car.running == w.car.running
    ensures w'.car.state == Offline ==> w' == w
    ensures w.car.running && w'.car.state in {Loading, Up, Down} ==> w.car.state == Idle
    ensures w.car.running && w.car.state in {Loading, Up, Down} ==> w'.car.state == Idle
    ensures -1 <= w'.car.currentFloor - w.car.currentFloor <= 1
    ensures w'.car.currentFloor != w.car.currentFloor ==> w.car.running && w.car.state in {Up, Down}
  {
    var car := w.car;
    if !car.running then w
    else match car.state
      case Offline => w
      case Idle => w.(car := car.(state := IdleDecision(w)))
      case Loading => LoadingTick(w)
      case Up =>
        var f := if car.currentFloor < MaxFloors then car.currentFloor + 1 else car.currentFloor;
        w.(car := car.(currentFloor := f, state := Idle))
      case Down =>
        var f := if car.currentFloor > 1 then car.currentFloor - 1 else car.currentFloor;
        w.(car := car.(currentFloor := f, state := Idle))
  }
}
