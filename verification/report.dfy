/** The status report of the proc read handler, at the level of its fields
    and tokens rather than its byte layout: state name, floor, load, one
    `<letter><dest>` token per rider, one line per floor from the top floor
    down (marked where the car is), and the three totals. */
module Report {
  import opened Wrappers
  import opened Passengers
  import opened Building

  /** The name the report prints for each state. */
  function StateName(s: State): string
  {
    match s
    case Offline => "OFFLINE"
    case Idle => "IDLE"
    case Loading => "LOADING"
    case Up => "UP"
    case Down => "DOWN"
  }

  /** The state name identifies the state. */
  lemma StateNameInjective(a: State, b: State)
    ensures StateName(a) == StateName(b) <==> a == b
  {
  }

  /** The `<letter><dest>` token printed for a passenger. */
  datatype Tag = Tag(letter: char, dest: int)

  function TagOf(p: Passenger): Tag
  {
    Tag(Letter(p.ptype), p.dest)
  }

  /** A token names the passenger's class and destination unambiguously. */
  lemma TagIdentifiesClass(p: Passenger, q: Passenger)
    ensures TagOf(p) == TagOf(q) <==> p.ptype == q.ptype && p.dest == q.dest
  {
    LetterInjective(p.ptype, q.ptype);
  }

  /** One token per passenger, in list order. */
  function Tags(s: seq<Passenger>): (t: seq<Tag>)
    ensures |t| == |s|
    ensures forall i :: 0 <= i < |s| ==> t[i] == TagOf(s[i])
  {
    if |s| == 0 then [] else [TagOf(s[0])] + Tags(s[1..])
  }

  /** One floor's line: the `*` marker, the floor number, its waiting count
      and the tokens of its queue, front first. */
  datatype FloorLine = FloorLine(here: bool, number: int, waiting: int, tags: seq<Tag>)

  /** The lines for floors n, n-1, .., 1, in that order. */
  function FloorLines(w: World, n: int): (lines: seq<FloorLine>)
    requires |w.floors| == MaxFloors && 0 <= n <= MaxFloors
    ensures |lines| == n
    ensures forall k :: 0 <= k < n ==>
      && lines[k].number == n - k
      && (lines[k].here <==> w.car.currentFloor == n - k)
      && lines[k].waiting == w.floors[n - k - 1].waitingCount
      && lines[k].tags == Tags(w.floors[n - k - 1].queue)
    decreases n
  {
    if n == 0 then []
    else
      var f := w.floors[n - 1];
      [FloorLine(w.car.currentFloor == n, n, f.waitingCount, Tags(f.queue))] + FloorLines(w, n - 1)
  }

  /** The waiting counts of floors n, n-1, .., 1 added up. */
  function TotalWaiting(floors: seq<Floor>, n: int): int
    requires 0 <= n <= |floors|
  {
    if n == 0 then 0 else floors[n - 1].waitingCount + TotalWaiting(floors, n - 1)
  }

  /** The report's content. */
  datatype Status = Status(
    stateName: string,
    floor: int,
    load: int,
    riders: seq<Tag>,
    lines: seq<FloorLine>,
    passengers: int,
    waiting: int,
    serviced: int)

  /** The report built under one lock acquisition: a function of one state. */
  function Snapshot(w: World): (st: Status)
    requires |w.floors| == MaxFloors
    ensures st.stateName == StateName(w.car.state)
    ensures st.floor == w.car.currentFloor && st.load == w.car.currentWeight
    ensures |st.riders| == |w.car.onboard|
    ensures forall i :: 0 <= i < |w.car.onboard| ==> st.riders[i] == TagOf(w.car.onboard[i])
    ensures |st.lines| == MaxFloors
    ensures forall k :: 0 <= k < MaxFloors ==>
      && st.lines[k].number == MaxFloors - k
      && (st.lines[k].here <==> w.car.currentFloor == MaxFloors - k)
      && st.lines[k].waiting == w.floors[MaxFloors - k - 1].waitingCount
      && st.lines[k].tags == Tags(w.floors[MaxFloors - k - 1].queue)
    ensures st.waiting == TotalWaiting(w.floors, MaxFloors)
    ensures st.passengers == w.car.passengerCount && st.serviced == w.car.totalServiced
  {
    Status(
      StateName(w.car.state),
      w.car.currentFloor,
      w.car.currentWeight,
      Tags(w.car.onboard),
      FloorLines(w, MaxFloors),
      w.car.passengerCount,
      TotalWaiting(w.floors, MaxFloors),
      w.car.totalServiced)
  }

  /** elevator_read: a read at a positive offset reports nothing (end of
      file); a read at offset 0 reports the snapshot. */
  function ElevatorRead(w: World, ppos: int): (r: Option<Status>)
    requires |w.floors| == MaxFloors
    ensures r.None? <==> ppos > 0
    ensures r.Some? ==> r.value == Snapshot(w)
  {
    if ppos > 0 then None else Some(Snapshot(w))
  }

  /** WaitingBag of one more floor. */
  lemma {:induction false} WaitingBagSnoc(floors: seq<Floor>, f: Floor)
    ensures WaitingBag(floors + [f]) == WaitingBag(floors) + multiset(f.queue)
    decreases |floors|
  {
    if |floors| == 0 {
      assert [f][1..] == [];
    } else {
      assert (floors + [f])[1..] == floors[1..] + [f];
      WaitingBagSnoc(floors[1..], f);
    }
  }

  /** With consistent counts, the summed waiting counts of the lowest n
      floors are the number of passengers waiting there. */
  lemma {:induction false} TotalWaitingCountsQueues(floors: seq<Floor>, n: int)
    requires 0 <= n <= |floors|
    requires forall i :: 0 <= i < |floors| ==> floors[i].waitingCount == |floors[i].queue|
    ensures TotalWaiting(floors, n) == |WaitingBag(floors[..n])|
    decreases n
  {
    if n > 0 {
      TotalWaitingCountsQueues(floors, n - 1);
      assert floors[..n] == floors[..n - 1] + [floors[n - 1]];
      WaitingBagSnoc(floors[..n - 1], floors[n - 1]);
    }
  }

  /** On a consistent state the report is truthful: floors are listed from
      the top down, exactly the car's floor is marked, each line's count is
      its queue's length, the rider and waiting totals count the riders and
      the waiting passengers, and the load is the riders' weight. */
  lemma SnapshotIsTruthful(w: World)
    requires Valid(w)
    ensures
      var st := Snapshot(w);
      && |st.lines| == MaxFloors
      && (forall k :: 0 <= k < MaxFloors ==> st.lines[k].number == MaxFloors - k)
      && (forall k :: 0 <= k < MaxFloors ==> (st.lines[k].here <==> k == MaxFloors - w.car.currentFloor))
      && (forall k :: 0 <= k < MaxFloors ==> st.lines[k].waiting == |st.lines[k].tags|)
      && st.riders == Tags(w.car.onboard)
      && st.passengers == |st.riders|
      && st.load == SumWeights(w.car.onboard)
      && st.waiting == |WaitingBag(w.floors)|
  {
    var st := Snapshot(w);
    assert forall i :: 0 <= i < MaxFloors ==> FloorOk(w.floors[i], i + 1);
    TotalWaitingCountsQueues(w.floors, MaxFloors);
    assert w.floors[..MaxFloors] == w.floors;
  }
}
