/** The request gateway: start and stop, passenger admission (from the proc
    write handler and from the syscall), and the decoding of the commands
    written to the proc file. Each call is one atomic step on the shared
    state; its integer result is the C return value. */
module Gateway {
  import opened Wrappers
  import opened Passengers
  import opened Building

  /** Linux errno values; the kernel functions return their negation. */
  const EINVAL: int := 22
  const ENOMEM: int := 12

  /** A gateway call's return value and the state it leaves behind. */
  datatype Outcome = Outcome(ret: int, world: World)

  // ---------------------------------------------------------------------
  // Start and stop.
  // ---------------------------------------------------------------------

  /** start_elevator: refused with 1 unless OFFLINE; otherwise the car runs,
      goes IDLE at floor 1 with its passenger count reset. As in the source,
      the load, the onboard list and the serviced counter are not touched. */
  function StartElevator(w: World): (o: Outcome)
    ensures w.car.state != Offline ==> o.ret == 1 && o.world == w
    ensures w.car.state == Offline ==>
      && o.ret == 0
      && o.world.car.running && o.world.car.state == Idle
      && o.world.car.currentFloor == 1 && o.world.car.passengerCount == 0
      && o.world.car.totalServiced == w.car.totalServiced
      && o.world.car.currentWeight == w.car.currentWeight
      && o.world.car.onboard == w.car.onboard
      && o.world.floors == w.floors
  {
    if w.car.state != Offline then Outcome(1, w)
    else Outcome(0, w.(car := w.car.(running := true, state := Idle, currentFloor := 1, passengerCount := 0)))
  }

  /** stop_elevator: already OFFLINE is a successful no-op; with riders
      aboard it is refused with 1; otherwise the car goes OFFLINE. */
  function StopElevator(w: World): (o: Outcome)
    ensures w.car.state == Offline ==> o == Outcome(0, w)
    ensures w.car.state != Offline && w.car.passengerCount > 0 ==> o == Outcome(1, w)
    ensures w.car.state != Offline && w.car.passengerCount <= 0 ==>
      && o.ret == 0
      && !o.world.car.running && o.world.car.state == Offline
      && o.world.car.currentFloor == w.car.currentFloor
      && o.world.car.passengerCount == w.car.passengerCount
      && o.world.car.onboard == w.car.onboard
      && o.world.car.currentWeight == w.car.currentWeight
      && o.world.car.totalServiced == w.car.totalServiced
      && o.world.floors == w.floors
  {
    if w.car.state == Offline then Outcome(0, w)
    else if w.car.passengerCount > 0 then Outcome(1, w)
    else Outcome(0, w.(car := w.car.(running := false, state := Offline)))
  }

  // ---------------------------------------------------------------------
  // Admission.
  // ---------------------------------------------------------------------

  /** add_passenger(type, start_floor, dest_floor): reject a bad route or a
      class code outside 0..3 with -EINVAL, an allocation failure with
      -ENOMEM; otherwise append the new passenger at the tail of the start
      floor's queue and bump that floor's waiting count. */
  function AddPassenger(w: World, code: int, start: int, dest: int, allocFails: bool): (o: Outcome)
    requires |w.floors| == MaxFloors
    ensures o.ret == -EINVAL <==> !ValidRoute(start, dest) || !(0 <= code <= 3)
    ensures o.ret == -ENOMEM <==> ValidRoute(start, dest) && 0 <= code <= 3 && allocFails
    ensures o.ret == 0 <==> ValidRoute(start, dest) && 0 <= code <= 3 && !allocFails
    ensures o.ret != 0 ==> o.world == w
    ensures o.ret == 0 ==>
      && o.world.car == w.car
      && |o.world.floors| == MaxFloors
      && o.world.floors[start - 1].queue
         == w.floors[start - 1].queue + [Passenger(TypeOfCode(code).value, start, dest)]
      && o.world.floors[start - 1].waitingCount == w.floors[start - 1].waitingCount + 1
      && forall i :: 0 <= i < MaxFloors && i != start - 1 ==> o.world.floors[i] == w.floors[i]
  {
    if !ValidRoute(start, dest) then Outcome(-EINVAL, w)
    else match TypeOfCode(code)
      case None => Outcome(-EINVAL, w)
      case Some(t) =>
        if allocFails then Outcome(-ENOMEM, w)
        else
          var floor := w.floors[start - 1];
          var p := Passenger(t, start, dest);
          Outcome(0, w.(floors := w.floors[start - 1 := Floor(floor.queue + [p], floor.waitingCount + 1)]))
  }

  /** elevator_issue_request(start_floor, dest_floor, type), the syscall
      entry: 1 for an invalid request or a failed admission, 0 once the
      passenger is queued. Note the argument order differs from
      add_passenger's. */
  function IssueRequest(w: World, start: int, dest: int, code: int, allocFails: bool): (o: Outcome)
    requires |w.floors| == MaxFloors
    ensures o.ret == 0 || o.ret == 1
    ensures o.ret == 0 <==> ValidRoute(start, dest) && 0 <= code <= 3 && !allocFails
    ensures o.ret == 1 ==> o.world == w
    ensures o.ret == 0 ==> o.world == AddPassenger(w, code, start, dest, allocFails).world
  {
    if !ValidRoute(start, dest) || code < 0 || code > 3 then Outcome(1, w)
    else
      var added := AddPassenger(w, code, start, dest, allocFails);
      if added.ret != 0 then Outcome(1, w) else Outcome(0, added.world)
  }

  // ---------------------------------------------------------------------
  // Command decoding of the proc write handler.
  // ---------------------------------------------------------------------

  /** The handler copies at most this many bytes (sizeof(buf) - 1). */
  const WriteBufferLimit: int := 127

  /** `strncmp(buf, word, |word|) == 0` on the NUL-terminated buffer,
      compared character by character; `word` holds no NUL, so a short
      buffer never matches. */
  function PrefixMatches(buf: string, word: string): (b: bool)
    ensures b <==> |word| <= |buf| && buf[..|word|] == word
  {
    if |word| == 0 then true
    else if |buf| == 0 then false
    else buf[0] == word[0] && PrefixMatches(buf[1..], word[1..])
  }

  /** The three forms of command the handler distinguishes. */
  datatype Command = StartCommand | StopCommand | RequestCommand

  /** "start" is matched first, then "stop"; anything else is a request. */
  function Classify(buf: string): (c: Command)
    ensures c == StartCommand <==> |buf| >= 5 && buf[..5] == "start"
    ensures c == StopCommand <==> !(|buf| >= 5 && buf[..5] == "start") && |buf| >= 4 && buf[..4] == "stop"
  {
    if PrefixMatches(buf, "start") then StartCommand
    else if PrefixMatches(buf, "stop") then StopCommand
    else RequestCommand
  }

  /** The two integers the handler's sscanf reads after the class letter. */
  datatype FloorPair = FloorPair(start: int, dest: int)

  /** The bytes the handler copies in: at most WriteBufferLimit of them. */
  function WriteBuffer(input: string): (buf: string)
    ensures |buf| == (if |input| < WriteBufferLimit then |input| else WriteBufferLimit)
    ensures buf <= input
    ensures |input| <= WriteBufferLimit ==> buf == input
  {
    input[..if |input| < WriteBufferLimit then |input| else WriteBufferLimit]
  }

  /** The request form is malformed: nothing written, the floors could not
      be read, or the first character is not a class letter. */
  predicate Malformed(buf: string, scanned: Option<FloorPair>)
  {
    |buf| == 0 || scanned.None? || CodeOfLetter(buf[0]).None?
  }

  /** The write handler, given the bytes written and the outcome of reading
      the two floor numbers. A nonzero result of the dispatched call is
      returned as is; success returns the number of bytes written. */
  function ElevatorWrite(w: World, input: string, scanned: Option<FloorPair>, allocFails: bool): (o: Outcome)
    requires |w.floors| == MaxFloors
    ensures Classify(WriteBuffer(input)) == StartCommand ==>
      && o.world == StartElevator(w).world
      && o.ret == (if StartElevator(w).ret == 0 then |input| else StartElevator(w).ret)
    ensures Classify(WriteBuffer(input)) == StopCommand ==>
      && o.world == StopElevator(w).world
      && o.ret == (if StopElevator(w).ret == 0 then |input| else StopElevator(w).ret)
    ensures Classify(WriteBuffer(input)) == RequestCommand && Malformed(WriteBuffer(input), scanned) ==>
      o == Outcome(-EINVAL, w)
    ensures Classify(WriteBuffer(input)) == RequestCommand && !Malformed(WriteBuffer(input), scanned) ==>
      var added := AddPassenger(w, CodeOfLetter(input[0]).value, scanned.value.start, scanned.value.dest, allocFails);
      && o.world == added.world
      && o.ret == (if added.ret == 0 then |input| else added.ret)
    ensures o.ret == |input| || o.ret == 1 || o.ret == -EINVAL || o.ret == -ENOMEM
  {
    var buf := WriteBuffer(input);
    var r := match Classify(buf)
      case StartCommand => StartElevator(w)
      case StopCommand => StopElevator(w)
      case RequestCommand =>
        if |buf| == 0 || scanned.None? then Outcome(-EINVAL, w)
        else match CodeOfLetter(buf[0])
          case None => Outcome(-EINVAL, w)
          case Some(code) => AddPassenger(w, code, scanned.value.start, scanned.value.dest, allocFails);
    if r.ret != 0 then r else Outcome(|input|, r.world)
  }
}
