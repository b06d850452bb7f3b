/** Concrete runs of the model: one Senior's ride from floor 2 to floor 5
    tick by tick, FIFO boarding in request order, a full load boarding
    nobody, and a misfit at the front of the queue blocking those behind. */
module Scenarios {
  import opened Passengers
  import opened Building
  import opened Dispatch
  import opened Gateway

  /** `n` ticks of the control loop with no other step in between. */
  function Ticks(w: World, n: nat): (w': World)
    requires Shaped(w)
    ensures Shaped(w')
    decreases n
  {
    if n == 0 then w else Ticks(Tick(w), n - 1)
  }

  /** Ticks compose. */
  lemma {:induction false} TicksAdd(w: World, m: nat, n: nat)
    requires Shaped(w)
    ensures Ticks(Ticks(w, m), n) == Ticks(w, m + n)
    decreases m
  {
    if m > 0 {
      TicksAdd(Tick(w), m - 1, n);
    }
  }

  // The ride of one Senior from floor 2 to floor 5.

  function Rider(): Passenger { Passenger(Senior, 2, 5) }

  function NoneWaiting(): seq<Floor> { seq(MaxFloors, _ => Floor([], 0)) }

  function RiderWaiting(): seq<Floor> { NoneWaiting()[1 := Floor([Rider()], 1)] }

  /** A running car in state `s` at floor `f`, with the rider aboard or not. */
  function RunningCar(s: State, f: int, aboard: bool, serviced: int): Car
  {
    if aboard then Car(s, f, 250, [Rider()], 1, serviced, true)
    else Car(s, f, 0, [], 0, serviced, true)
  }

  lemma RideRequestAndStart()
    ensures StartElevator(IssueRequest(Initial(), 2, 5, 3, false).world).world
         == World(RunningCar(Idle, 1, false, 0), RiderWaiting())
  {
    var added := IssueRequest(Initial(), 2, 5, 3, false);
    assert Initial().floors == NoneWaiting();
    assert added.world.floors == NoneWaiting()[1 := Floor([] + [Rider()], 0 + 1)];
    assert [] + [Rider()] == [Rider()];
  }

  lemma RideToPickup()
    ensures Ticks(World(RunningCar(Idle, 1, false, 0), RiderWaiting()), 2)
         == World(RunningCar(Idle, 2, false, 0), RiderWaiting())
  {
    var w := World(RunningCar(Idle, 1, false, 0), RiderWaiting());
    assert w.floors[1].waitingCount > 0;
    assert Tick(w) == World(RunningCar(Up, 1, false, 0), RiderWaiting());
  }

  lemma RidePickupDecision()
    ensures Tick(World(RunningCar(Idle, 2, false, 0), RiderWaiting()))
         == World(RunningCar(Loading, 2, false, 0), RiderWaiting())
  {
    assert FrontFits(World(RunningCar(Idle, 2, false, 0), RiderWaiting()));
  }

  lemma BoardRider()
    ensures Board([], 0, 0, [Rider()]) == Boarding([Rider()], 250, 1, [], 1)
  {
    assert [Rider()][1..] == [] && [Rider()][..1] == [Rider()];
    assert Board([Rider()], 250, 1, []) == Boarding([Rider()], 250, 1, [], 0);
  }

  lemma RidePickupLoad()
    ensures Tick(World(RunningCar(Loading, 2, false, 0), RiderWaiting()))
         == World(RunningCar(Idle, 2, true, 0), NoneWaiting())
  {
    var w1 := World(RunningCar(Loading, 2, false, 0), RiderWaiting());
    assert Tick(w1) == LoadingTick(w1);
    assert Leaving([], 2) == [] && Staying([], 2) == [] && SumWeights([]) == 0;
    BoardRider();
    assert RiderWaiting()[1 := Floor([], 0)] == NoneWaiting();
  }

  lemma RidePickup()
    ensures Ticks(World(RunningCar(Idle, 2, false, 0), RiderWaiting()), 2)
         == World(RunningCar(Idle, 2, true, 0), NoneWaiting())
  {
    RidePickupDecision();
    RidePickupLoad();
  }

  lemma RideOneFloorUp(f: int)
    requires 2 <= f < 5
    ensures Ticks(World(RunningCar(Idle, f, true, 0), NoneWaiting()), 2)
         == World(RunningCar(Idle, f + 1, true, 0), NoneWaiting())
  {
    var w := World(RunningCar(Idle, f, true, 0), NoneWaiting());
    assert HeadingOf([Rider()], f) == Rising;
    assert !FrontFits(w);
    assert Tick(w) == World(RunningCar(Up, f, true, 0), NoneWaiting());
  }

  lemma RideDropOff()
    ensures Ticks(World(RunningCar(Idle, 5, true, 0), NoneWaiting()), 2)
         == World(RunningCar(Idle, 5, false, 1), NoneWaiting())
  {
    var w1 := World(RunningCar(Loading, 5, true, 0), NoneWaiting());
    assert Leaving([Rider()], 5) == [Rider()] && Staying([Rider()], 5) == [];
    assert Board([], 0, 0, []) == Boarding([], 0, 0, [], 0);
    assert NoneWaiting()[4 := Floor([], 0)] == NoneWaiting();
    assert Tick(w1) == World(RunningCar(Idle, 5, false, 1), NoneWaiting());
  }

  /** A Senior (250 lbs) requested from floor 2 to floor 5 on a freshly
      loaded module, then the car started: after 4 ticks the car is at
      floor 2 with the passenger aboard and a load of 250; 8 ticks later it
      is at floor 5, empty, with one passenger serviced. */
  lemma SeniorFromTwoToFive()
    ensures
      var w0 := StartElevator(IssueRequest(Initial(), 2, 5, 3, false).world).world;
      && Ticks(w0, 4).car == Car(Idle, 2, 250, [Passenger(Senior, 2, 5)], 1, 0, true)
      && Ticks(w0, 12).car == Car(Idle, 5, 0, [], 0, 1, true)
      && Ticks(w0, 12).floors == Initial().floors
  {
    RideRequestAndStart();
    var a := World(RunningCar(Idle, 1, false, 0), RiderWaiting());
    var b := World(RunningCar(Idle, 2, false, 0), RiderWaiting());
    var c := World(RunningCar(Idle, 2, true, 0), NoneWaiting());
    RideToPickup();
    RidePickup();
    TicksAdd(a, 2, 2);
    RideOneFloorUp(2);
    RideOneFloorUp(3);
    RideOneFloorUp(4);
    RideDropOff();
    var d := World(RunningCar(Idle, 3, true, 0), NoneWaiting());
    var e := World(RunningCar(Idle, 4, true, 0), NoneWaiting());
    var f := World(RunningCar(Idle, 5, true, 0), NoneWaiting());
    TicksAdd(a, 4, 2);
    TicksAdd(a, 6, 2);
    TicksAdd(a, 8, 2);
    TicksAdd(a, 10, 2);
  }

  // Boarding order and capacity.

  /** Requests (F, 1, 3) then (S, 1, 2) waiting at floor 1 with an empty car
      both board, in request order, for a load of 350. */
  lemma FifoBoarding()
    ensures
      var f := Passenger(Freshman, 1, 3);
      var s := Passenger(Senior, 1, 2);
      Board([], 0, 0, [f, s]) == Boarding([f, s], 350, 2, [], 2)
  {
    var f := Passenger(Freshman, 1, 3);
    var s := Passenger(Senior, 1, 2);
    assert [f, s][1..] == [s] && [s][1..] == [];
    assert Board([f, s], 350, 2, []) == Boarding([f, s], 350, 2, [], 0);
  }

  /** With the full 750 lbs aboard nobody boards, however few riders there are. */
  lemma FullLoadBoardsNobody(onboard: seq<Passenger>, count: int, queue: seq<Passenger>)
    ensures Board(onboard, MaxWeight, count, queue).loaded == 0
  {
    if |queue| > 0 {
      assert Weight(queue[0].ptype) > 0;
      assert !(MaxWeight + Weight(queue[0].ptype) <= MaxWeight);
    }
  }

  /** Boarding stops at the first passenger who does not fit: with 600 lbs
      aboard, a waiting Senior (250) blocks the Freshman (100) behind it,
      although the Freshman alone would fit. */
  lemma MisfitBlocksQueue()
    ensures
      var s := Passenger(Senior, 1, 4);
      var f := Passenger(Freshman, 1, 2);
      && Board([], 600, 3, [s, f]).loaded == 0
      && Board([], 600, 3, [f]).loaded == 1
  {
    var f := Passenger(Freshman, 1, 2);
    assert [f][1..] == [];
  }
}
