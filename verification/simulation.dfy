/** The whole system as a sequence of atomic steps: control-loop ticks
    interleaved with gateway calls, which is how requests arriving while the
    car travels are modelled. Every state reachable from module load is
    consistent, and passengers are accounted for exactly. */
module Simulation {
  import opened Passengers
  import opened Building
  import opened Dispatch
  import opened DispatchProperties
  import opened Gateway
  import opened GatewayProperties

  /** One atomic step: a tick of the control loop or one gateway call. */
  datatype Step =
    | TickStep
    | StartStep
    | StopStep
    | RequestStep(start: int, dest: int, code: int, allocFails: bool)

  /** The state after one step. */
  function Apply(w: World, step: Step): (w': World)
    requires Shaped(w)
    ensures Shaped(w')
  {
    match step
    case TickStep => Tick(w)
    case StartStep => StartElevator(w).world
    case StopStep => StopElevator(w).world
    case RequestStep(s, d, c, a) => IssueRequest(w, s, d, c, a).world
  }

  /** The state after a sequence of steps. */
  function Run(w: World, steps: seq<Step>): (w': World)
    requires Shaped(w)
    ensures Shaped(w')
    decreases |steps|
  {
    if |steps| == 0 then w else Run(Apply(w, steps[0]), steps[1..])
  }

  /** How many requests in a run were admitted. */
  function Admitted(w: World, steps: seq<Step>): nat
    requires Shaped(w)
    decreases |steps|
  {
    if |steps| == 0 then 0
    else
      var now := if steps[0].RequestStep? && IssueRequest(w, steps[0].start, steps[0].dest, steps[0].code, steps[0].allocFails).ret == 0 then 1 else 0;
      now + Admitted(Apply(w, steps[0]), steps[1..])
  }

  /** Every step keeps the invariant. */
  lemma ApplyPreservesValid(w: World, step: Step)
    requires Valid(w)
    ensures Valid(Apply(w, step))
  {
    match step
    case TickStep => TickPreservesValid(w);
    case StartStep => StartPreservesValid(w);
    case StopStep => StopPreservesValid(w);
    case RequestStep(s, d, c, a) => AddPassengerPreservesValid(w, c, s, d, a);
  }

  /** Every step keeps the books: passengers in the building plus those
      serviced grows by one exactly when a request is admitted. */
  lemma ApplyAccounts(w: World, step: Step)
    requires Shaped(w)
    ensures
      var w' := Apply(w, step);
      var admitted := if step.RequestStep? && IssueRequest(w, step.start, step.dest, step.code, step.allocFails).ret == 0 then 1 else 0;
      && |Population(w')| + w'.car.totalServiced == |Population(w)| + w.car.totalServiced + admitted
      && w'.car.totalServiced >= w.car.totalServiced
  {
    match step
    case TickStep =>
      TickConservesPassengers(w);
    case StartStep =>
    case StopStep =>
    case RequestStep(s, d, c, a) =>
      AddPassengerConserves(w, c, s, d, a);
  }

  /** A run from a consistent state stays consistent at every step. */
  lemma {:induction false} RunPreservesValid(w: World, steps: seq<Step>)
    requires Valid(w)
    ensures Valid(Run(w, steps))
    decreases |steps|
  {
    if |steps| > 0 {
      ApplyPreservesValid(w, steps[0]);
      RunPreservesValid(Apply(w, steps[0]), steps[1..]);
    }
  }

  /** Over a whole run nobody is lost or duplicated: passengers in the
      building plus those serviced grows by exactly the number admitted, and
      the serviced counter never goes down. */
  lemma {:induction false} RunAccounts(w: World, steps: seq<Step>)
    requires Shaped(w)
    ensures |Population(Run(w, steps))| + Run(w, steps).car.totalServiced
         == |Population(w)| + w.car.totalServiced + Admitted(w, steps)
    ensures Run(w, steps).car.totalServiced >= w.car.totalServiced
    decreases |steps|
  {
    if |steps| > 0 {
      ApplyAccounts(w, steps[0]);
      RunAccounts(Apply(w, steps[0]), steps[1..]);
    }
  }

  /** Every state reachable from module load satisfies the invariant: the
      load is the riders' weight and at most MaxWeight, at most Capacity
      riders, waiting counts match queues, the floor is within range, and
      OFFLINE means stopped and empty. */
  lemma Reachable(steps: seq<Step>)
    ensures Valid(Run(Initial(), steps))
    ensures |Population(Run(Initial(), steps))| + Run(Initial(), steps).car.totalServiced == Admitted(Initial(), steps)
  {
    RunPreservesValid(Initial(), steps);
    RunAccounts(Initial(), steps);
    assert WaitingBag(Initial().floors) == multiset{} by {
      var fs := Initial().floors;
      assert fs[1..][1..][1..][1..][1..][1..] == [];
    }
  }
}
