/** The control loop as the source actually runs it: the UP, DOWN and
    LOADING cases release the lock for the travel or dwell delay and take it
    again to finish, so gateway calls can run in between. A tick is split
    into the part before the delay (`Begin`) and the part after (`Resume`).
    The source's `Resume` overwrites the state unconditionally; the
    corrected `Resume` first checks that no gateway call changed the state
    meanwhile. With nothing in between, both equal the atomic `Tick`. */
module Interleaving {
  import opened Passengers
  import opened Building
  import opened Dispatch
  import opened DispatchProperties
  import opened Gateway
  import opened GatewayProperties

  /** What the control loop is sleeping on, if anything. */
  datatype Pending = Awake | Travel(up: bool) | Dwell

  /** The shared state plus the control loop's position. */
  datatype Machine = Machine(world: World, pending: Pending)

  /** Whether the LOADING case unloads or boards anybody. */
  predicate MadeChanges(w: World)
    requires Shaped(w)
  {
    var f := w.car.currentFloor;
    Leaving(w.car.onboard, f) != []
    || |LoadingTick(w).floors[f - 1].queue| < |w.floors[f - 1].queue|
  }

  /** The first critical section of a tick. UP/DOWN away from the boundary
      start travelling without changing anything; LOADING does all its
      unloading and boarding and, if anybody moved, starts the dwell still in
      LOADING; every other case completes at once. */
  function Begin(w: World): (m: Machine)
    requires Shaped(w)
    ensures m.pending == Awake ==> m.world == Tick(w)
    ensures m.pending.Travel? ==> m.world == w
  {
    var car := w.car;
    if !car.running then Machine(w, Awake)
    else match car.state
      case Up => if car.currentFloor < MaxFloors then Machine(w, Travel(true)) else Machine(Tick(w), Awake)
      case Down => if car.currentFloor > 1 then Machine(w, Travel(false)) else Machine(Tick(w), Awake)
      case Loading =>
        var l := LoadingTick(w);
        if MadeChanges(w) then Machine(l.(car := l.car.(state := Loading)), Dwell) else Machine(l, Awake)
      case _ => Machine(Tick(w), Awake)
  }

  /** The second critical section as written: after the travel delay the
      floor moves by one and the state becomes IDLE; after the dwell the
      state becomes IDLE, whatever happened meanwhile. */
  function ResumeAsWritten(m: Machine): (m': Machine)
    ensures m'.pending == Awake
    ensures m.pending != Awake ==> m'.world.car.state == Idle
  {
    var car := m.world.car;
    match m.pending
    case Awake => m
    case Travel(up) =>
      var f := if up then car.currentFloor + 1 else car.currentFloor - 1;
      Machine(m.world.(car := car.(currentFloor := f, state := Idle)), Awake)
    case Dwell => Machine(m.world.(car := car.(state := Idle)), Awake)
  }

  /** The second critical section, corrected: it only finishes the move or
      the dwell if the state is still the one the first half left, i.e. no
      stop (or stop and start) intervened; otherwise the gateway's change
      stands. */
  function Resume(m: Machine): (m': Machine)
    ensures m'.pending == Awake
    ensures m.pending == Travel(true) && m.world.car.state != Up ==> m'.world == m.world
    ensures m.pending == Travel(false) && m.world.car.state != Down ==> m'.world == m.world
    ensures m.pending == Dwell && m.world.car.state != Loading ==> m'.world == m.world
    ensures m.pending == Travel(true) && m.world.car.state == Up ==> m' == ResumeAsWritten(m)
    ensures m.pending == Travel(false) && m.world.car.state == Down ==> m' == ResumeAsWritten(m)
    ensures m.pending == Dwell && m.world.car.state == Loading ==> m' == ResumeAsWritten(m)
  {
    var car := m.world.car;
    match m.pending
    case Awake => m
    case Travel(up) =>
      if car.state != (if up then Up else Down) then Machine(m.world, Awake)
      else ResumeAsWritten(m)
    case Dwell =>
      if car.state != Loading then Machine(m.world, Awake)
      else ResumeAsWritten(m)
  }

  /** Resuming after a dwell puts back the IDLE state the LOADING pass
      ended in. */
  lemma DwellResumesToIdle(l: World)
    requires l.car.state == Idle
    ensures ResumeAsWritten(Machine(l.(car := l.car.(state := Loading)), Dwell)).world == l
    ensures Resume(Machine(l.(car := l.car.(state := Loading)), Dwell)).world == l
  {
    assert l.car.(state := Loading).(state := Idle) == l.car;
  }

  /** With nothing in between, both halves make up exactly the atomic tick,
      as written and corrected alike; this is what justifies modelling a
      tick as one step. */
  lemma UninterruptedTickIsAtomic(w: World)
    requires Valid(w)
    ensures Resume(Begin(w)).world == Tick(w)
    ensures ResumeAsWritten(Begin(w)).world == Tick(w)
  {
    if !w.car.running {
    } else if w.car.state == Loading {
      var l := LoadingTick(w);
      assert Tick(w) == l;
      if MadeChanges(w) {
        assert Begin(w) == Machine(l.(car := l.car.(state := Loading)), Dwell);
        DwellResumesToIdle(l);
      } else {
        assert Begin(w) == Machine(l, Awake);
      }
    } else if w.car.state == Up {
      if w.car.currentFloor < MaxFloors {
        assert Begin(w) == Machine(w, Travel(true));
      }
    } else if w.car.state == Down {
      if w.car.currentFloor > 1 {
        assert Begin(w) == Machine(w, Travel(false));
      }
    }
  }

  /** The events that can happen: the loop's two halves and gateway calls. */
  datatype Event =
    | TickBegins
    | TickResumes
    | StartCall
    | StopCall
    | RequestCall(start: int, dest: int, code: int, allocFails: bool)

  /** A gateway call, which may run while the loop sleeps. */
  function Call(m: Machine, e: Event): (m': Machine)
    requires |m.world.floors| == MaxFloors && !e.TickBegins? && !e.TickResumes?
    ensures m'.pending == m.pending
  {
    match e
    case StartCall => m.(world := StartElevator(m.world).world)
    case StopCall => m.(world := StopElevator(m.world).world)
    case RequestCall(s, d, c, a) => m.(world := IssueRequest(m.world, s, d, c, a).world)
  }

  /** The corrected system: a tick begins only when the loop is awake and
      resumes only when it sleeps; calls can come at any time. */
  function Step(m: Machine, e: Event): Machine
    requires Shaped(m.world)
  {
    match e
    case TickBegins => if m.pending == Awake then Begin(m.world) else m
    case TickResumes => Resume(m)
    case _ => Call(m, e)
  }

  /** What stays true between events: the world is consistent, and a pending
      move whose state is still UP (DOWN) started below the top floor (above
      the bottom floor). */
  predicate MachineOk(m: Machine)
  {
    && Valid(m.world)
    && (m.pending == Travel(true) && m.world.car.state == Up ==> m.world.car.currentFloor < MaxFloors)
    && (m.pending == Travel(false) && m.world.car.state == Down ==> m.world.car.currentFloor > 1)
  }

  /** The first half of a tick from a consistent state leaves a consistent
      state, and a pending move away from the boundary it heads for. */
  lemma BeginPreservesOk(w: World)
    requires Valid(w)
    ensures MachineOk(Begin(w))
  {
    TickPreservesValid(w);
    if w.car.running && w.car.state == Loading && MadeChanges(w) {
      LoadingPreservesValid(w);
      var l := LoadingTick(w);
      assert Tick(w) == l;
      assert forall i :: 0 <= i < MaxFloors ==> FloorOk(l.floors[i], i + 1);
      assert Begin(w) == Machine(l.(car := l.car.(state := Loading)), Dwell);
    }
  }

  /** The corrected system keeps the invariant under every interleaving of
      gateway calls with the halves of a tick. */
  lemma StepPreservesOk(m: Machine, e: Event)
    requires MachineOk(m)
    ensures Shaped(Step(m, e).world) && MachineOk(Step(m, e))
  {
    match e
    case TickBegins =>
      if m.pending == Awake {
        BeginPreservesOk(m.world);
      }
    case TickResumes =>
    case StartCall => StartPreservesValid(m.world);
    case StopCall => StopPreservesValid(m.world);
    case RequestCall(s, d, c, a) =>
      AddPassengerPreservesValid(m.world, c, s, d, a);
  }

  /** The state after a sequence of events in the corrected system. */
  function Steps(m: Machine, es: seq<Event>): (m': Machine)
    requires MachineOk(m)
    ensures MachineOk(m')
    decreases |es|
  {
    if |es| == 0 then m
    else
      StepPreservesOk(m, es[0]);
      Steps(Step(m, es[0]), es[1..])
  }

  /** Every state the corrected system reaches from module load, under any
      interleaving, is consistent: in particular OFFLINE exactly when not
      running, and the floor within 1..MaxFloors. */
  lemma CorrectedReachable(es: seq<Event>)
    ensures MachineOk(Machine(Initial(), Awake))
    ensures Valid(Steps(Machine(Initial(), Awake), es).world)
  {
  }

  // ---------------------------------------------------------------------
  // The source as written: counterexamples.
  // ---------------------------------------------------------------------

  /** A lone rider gets off at their destination. */
  lemma SoleRiderLeaves(p: Passenger)
    ensures Leaving([p], p.dest) == [p] && Staying([p], p.dest) == []
  {
    assert [p][1..] == [];
    assert Leaving([], p.dest) == [] && Staying([], p.dest) == [];
  }

  /** A running, empty car at floor `f` in state `s`, nobody waiting. */
  function EmptyCar(s: State, f: int): World
  {
    World(Car(s, f, 0, [], 0, 0, true), seq(MaxFloors, _ => Floor([], 0)))
  }

  /** Stop during the travel delay of a move: stop succeeds (the car is
      empty) and sets OFFLINE, then the loop wakes and writes IDLE. The car
      is now IDLE but not running, so the loop never moves it, and start
      refuses with "already active". */
  lemma StopDuringTravelAsWritten()
    ensures
      var w := EmptyCar(Up, 1);
      var m1 := Begin(w);
      var m2 := m1.(world := StopElevator(m1.world).world);
      var m3 := ResumeAsWritten(m2);
      && Valid(w)
      && StopElevator(m1.world).ret == 0
      && m3.world.car.state == Idle && !m3.world.car.running
      && !Valid(m3.world)
      && StartElevator(m3.world) == Outcome(1, m3.world)
      && Tick(m3.world) == m3.world
  {
  }

  /** Stop and then start during the travel delay of a DOWN move from
      floor 2: start puts the car at floor 1, then the loop wakes and
      decrements the floor to 0, outside 1..MaxFloors; the next IDLE tick
      would index the floor array at -1. */
  lemma StopStartDuringDescentAsWritten()
    ensures
      var w := EmptyCar(Down, 2);
      var m1 := Begin(w);
      var m2 := m1.(world := StopElevator(m1.world).world);
      var m3 := m2.(world := StartElevator(m2.world).world);
      var m4 := ResumeAsWritten(m3);
      && Valid(w)
      && StopElevator(m1.world).ret == 0 && StartElevator(m2.world).ret == 0
      && m4.world.car.currentFloor == 0
      && m4.world.car.running && m4.world.car.state == Idle
      && !Shaped(m4.world)
  {
  }

  /** Stop during the dwell after the last rider got off: the loop has
      already unloaded, stop succeeds and sets OFFLINE, then the loop wakes
      and writes IDLE: again IDLE but not running. */
  lemma StopDuringDwellAsWritten()
    ensures
      var p := Passenger(Junior, 1, 3);
      var w := World(Car(Loading, 3, 200, [p], 1, 0, true), seq(MaxFloors, _ => Floor([], 0)));
      var m1 := Begin(w);
      var m2 := m1.(world := StopElevator(m1.world).world);
      var m3 := ResumeAsWritten(m2);
      && Valid(w)
      && m1.pending == Dwell
      && StopElevator(m1.world).ret == 0
      && m3.world.car.state == Idle && !m3.world.car.running
      && !Valid(m3.world)
  {
    var p := Passenger(Junior, 1, 3);
    var w := World(Car(Loading, 3, 200, [p], 1, 0, true), seq(MaxFloors, _ => Floor([], 0)));
    SoleRiderLeaves(p);
    assert Board([], 0, 0, []) == Boarding([], 0, 0, [], 0);
    assert MadeChanges(w);
  }

  /** A stop during the travel delay stands in the corrected system. */
  lemma CorrectedStopDuringTravel()
    ensures
      var m1 := Begin(EmptyCar(Up, 1));
      var m3 := Resume(m1.(world := StopElevator(m1.world).world));
      Valid(m3.world) && m3.world.car.state == Offline
  {
    assert Begin(EmptyCar(Up, 1)) == Machine(EmptyCar(Up, 1), Travel(true));
  }

  /** Stop and start during a descent leave the car IDLE at floor 1 in the
      corrected system. */
  lemma CorrectedStopStartDuringDescent()
    ensures
      var m1 := Begin(EmptyCar(Down, 2));
      var m2 := m1.(world := StopElevator(m1.world).world);
      var m4 := Resume(m2.(world := StartElevator(m2.world).world));
      Valid(m4.world) && m4.world.car.currentFloor == 1 && m4.world.car.state == Idle
  {
    assert Begin(EmptyCar(Down, 2)) == Machine(EmptyCar(Down, 2), Travel(false));
  }

  /** A stop during the dwell stands in the corrected system. */
  lemma CorrectedStopDuringDwell()
    ensures
      var p := Passenger(Junior, 1, 3);
      var w := World(Car(Loading, 3, 200, [p], 1, 0, true), seq(MaxFloors, _ => Floor([], 0)));
      var m1 := Begin(w);
      var m3 := Resume(m1.(world := StopElevator(m1.world).world));
      Valid(m3.world) && m3.world.car.state == Offline
  {
    var p := Passenger(Junior, 1, 3);
    var w := World(Car(Loading, 3, 200, [p], 1, 0, true), seq(MaxFloors, _ => Floor([], 0)));
    SoleRiderLeaves(p);
    assert Board([], 0, 0, []) == Boarding([], 0, 0, [], 0);
    assert MadeChanges(w);
  }

  /** The same three interleavings in the corrected system leave a
      consistent state: the gateway's stop (and start) stands. */
  lemma CorrectedHandlesTheSameInterleavings()
    ensures
      var m1 := Begin(EmptyCar(Up, 1));
      var m3 := Resume(m1.(world := StopElevator(m1.world).world));
      Valid(m3.world) && m3.world.car.state == Offline
    ensures
      var m1 := Begin(EmptyCar(Down, 2));
      var m2 := m1.(world := StopElevator(m1.world).world);
      var m4 := Resume(m2.(world := StartElevator(m2.world).world));
      Valid(m4.world) && m4.world.car.currentFloor == 1 && m4.world.car.state == Idle
    ensures
      var p := Passenger(Junior, 1, 3);
      var w := World(Car(Loading, 3, 200, [p], 1, 0, true), seq(MaxFloors, _ => Floor([], 0)));
      var m1 := Begin(w);
      var m3 := Resume(m1.(world := StopElevator(m1.world).world));
      Valid(m3.world) && m3.world.car.state == Offline
  {
    CorrectedStopDuringTravel();
    CorrectedStopStartDuringDescent();
    CorrectedStopDuringDwell();
  }
}
