/** The timer proc file: every read at offset 0 reports the current time
    and, from the second such read on, the time elapsed since the previous
    one, computed by timespec subtraction with a nanosecond borrow. The
    clock is a parameter: each read is given the time it observes. */
module Timer {

  const NanosPerSecond: int := 1_000_000_000

  /** A (seconds, nanoseconds) timestamp. */
  datatype Timespec = Timespec(sec: int, nsec: int)

  /** The clock's timestamps keep nanoseconds within one second. */
  predicate Normalised(t: Timespec)
  {
    0 <= t.nsec < NanosPerSecond
  }

  /** The instant a timestamp denotes, in nanoseconds. */
  function TotalNanos(t: Timespec): int
  {
    t.sec * NanosPerSecond + t.nsec
  }

  /** Elapsed time from `last` to `current`: subtract component-wise and,
      when the nanoseconds come out negative, borrow one second. */
  function Elapsed(current: Timespec, last: Timespec): (d: Timespec)
    ensures Normalised(current) && Normalised(last) ==> Normalised(d)
    ensures TotalNanos(d) == TotalNanos(current) - TotalNanos(last)
  {
    var sec := current.sec - last.sec;
    var nsec := current.nsec - last.nsec;
    if nsec < 0 then Timespec(sec - 1, nsec + NanosPerSecond) else Timespec(sec, nsec)
  }

  /** The borrow: exactly one second moves into the nanoseconds when they
      would be negative, and none otherwise. */
  lemma ElapsedBorrow(current: Timespec, last: Timespec)
    ensures current.nsec < last.nsec <==> Elapsed(current, last).sec == current.sec - last.sec - 1
    ensures current.nsec < last.nsec ==> Elapsed(current, last).nsec == current.nsec - last.nsec + NanosPerSecond
    ensures current.nsec >= last.nsec ==> Elapsed(current, last) == Timespec(current.sec - last.sec, current.nsec - last.nsec)
  {
  }

  /** Two normalised timestamps denoting the same instant are equal. */
  lemma NormalisedUnique(a: Timespec, b: Timespec)
    requires Normalised(a) && Normalised(b)
    requires TotalNanos(a) == TotalNanos(b)
    ensures a == b
  {
  }

  /** For normalised inputs the result is the one normalised timestamp
      whose value is the difference of the two instants. */
  lemma ElapsedIsTheNormalisedDifference(current: Timespec, last: Timespec, t: Timespec)
    requires Normalised(current) && Normalised(last) && Normalised(t)
    ensures TotalNanos(t) == TotalNanos(current) - TotalNanos(last) <==> t == Elapsed(current, last)
  {
    if TotalNanos(t) == TotalNanos(current) - TotalNanos(last) {
      NormalisedUnique(t, Elapsed(current, last));
    }
  }

  /** The module's two variables. */
  datatype TimerState = TimerState(lastTime: Timespec, firstRead: bool)

  /** timer_init: remember the load time, and expect a first read. */
  function TimerInit(now: Timespec): (s: TimerState)
    ensures s.lastTime == now && s.firstRead
    ensures forall later :: TimerRead(s, 0, later).output == CurrentOnly(later)
  {
    TimerState(now, true)
  }

  /** What a read reports. */
  datatype Output = NoOutput | CurrentOnly(current: Timespec) | CurrentAndElapsed(current: Timespec, elapsed: Timespec)

  datatype ReadResult = ReadResult(output: Output, state: TimerState)

  /** timer_read at offset `ppos`, observing the clock at `now`. */
  function TimerRead(s: TimerState, ppos: int, now: Timespec): (r: ReadResult)
    ensures ppos > 0 ==> r == ReadResult(NoOutput, s)
    ensures ppos <= 0 ==> r.state == TimerState(now, false)
    ensures ppos <= 0 ==> (r.output.CurrentOnly? <==> s.firstRead)
    ensures ppos <= 0 ==> !r.output.NoOutput? && r.output.current == now
    ensures ppos <= 0 && !s.firstRead ==>
      r.output.CurrentAndElapsed? && TotalNanos(r.output.elapsed) == TotalNanos(now) - TotalNanos(s.lastTime)
    ensures ppos <= 0 && !s.firstRead ==> r.output == CurrentAndElapsed(now, Elapsed(now, s.lastTime))
  {
    if ppos > 0 then ReadResult(NoOutput, s)
    else if !s.firstRead then ReadResult(CurrentAndElapsed(now, Elapsed(now, s.lastTime)), TimerState(now, false))
    else ReadResult(CurrentOnly(now), TimerState(now, false))
  }

  /** One read request: its file offset and the time the clock shows. */
  datatype ReadCall = ReadCall(ppos: int, now: Timespec)

  /** The outputs of a sequence of reads. */
  function Outputs(s: TimerState, calls: seq<ReadCall>): (outs: seq<Output>)
    ensures |outs| == |calls|
    decreases |calls|
  {
    if |calls| == 0 then []
    else
      var r := TimerRead(s, calls[0].ppos, calls[0].now);
      [r.output] + Outputs(r.state, calls[1..])
  }

  /** The state after a sequence of reads. */
  function After(s: TimerState, calls: seq<ReadCall>): TimerState
    decreases |calls|
  {
    if |calls| == 0 then s
    else After(TimerRead(s, calls[0].ppos, calls[0].now).state, calls[1..])
  }

  /** In any sequence of reads from a fresh module, read i reports the current
      time alone exactly when it is the first read at offset 0; a read at a
      positive offset reports nothing; every other read reports the elapsed
      time too. */
  lemma {:induction false} OnlyFirstReadIsBare(s: TimerState, calls: seq<ReadCall>, i: int)
    requires 0 <= i < |calls|
    ensures Outputs(s, calls)[i].CurrentOnly? <==>
      s.firstRead && calls[i].ppos <= 0 && forall j :: 0 <= j < i ==> calls[j].ppos > 0
    ensures Outputs(s, calls)[i].NoOutput? <==> calls[i].ppos > 0
    decreases |calls|
  {
    var r := TimerRead(s, calls[0].ppos, calls[0].now);
    if i > 0 {
      OnlyFirstReadIsBare(r.state, calls[1..], i - 1);
      assert Outputs(s, calls)[i] == Outputs(r.state, calls[1..])[i - 1];
      assert forall j :: 1 <= j < i ==> calls[1..][j - 1] == calls[j];
      if calls[0].ppos > 0 {
        assert r.state == s;
      }
    }
  }

  /** The module's state after reads: `last_time` is the time of the last
      read at offset 0 (unchanged if there was none), and the first-read flag
      is cleared once any read at offset 0 has happened. */
  lemma {:induction false} AfterReads(s: TimerState, calls: seq<ReadCall>)
    ensures (forall j :: 0 <= j < |calls| ==> calls[j].ppos > 0) ==> After(s, calls) == s
    ensures forall i :: 0 <= i < |calls| && calls[i].ppos <= 0
                       && (forall j :: i < j < |calls| ==> calls[j].ppos > 0)
                     ==> After(s, calls) == TimerState(calls[i].now, false)
    decreases |calls|
  {
    if |calls| > 0 {
      var r := TimerRead(s, calls[0].ppos, calls[0].now);
      AfterReads(r.state, calls[1..]);
      assert forall j :: 1 <= j < |calls| ==> calls[1..][j - 1] == calls[j];
    }
  }
}
