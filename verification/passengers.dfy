/** Passengers of the elevator simulation: the four ranked classes, their
    weights, the letters that name them, and the two integer/letter codes
    through which requests arrive. */
module Passengers {
  import opened Wrappers

  /** Floors are numbered 1 .. MaxFloors. */
  const MaxFloors: int := 6
  /** The car never carries more than this weight (pounds). */
  const MaxWeight: int := 750
  /** The car never carries more than this many passengers. */
  const Capacity: int := 5

  /** The four ranked classes; the source stores them as the characters
      'F', 'O', 'J' and 'S'. */
  datatype PassengerType = Freshman | Sophomore | Junior | Senior

  /** A passenger is immutable once created: class, origin and destination. */
  datatype Passenger = Passenger(ptype: PassengerType, start: int, dest: int)

  /** The weight each class contributes to the car's load. */
  function Weight(t: PassengerType): (w: nat)
    ensures w == 100 + 50 * CodeOf(t)
    ensures 100 <= w <= 250
  {
    match t
    case Freshman => 100
    case Sophomore => 150
    case Junior => 200
    case Senior => 250
  }

  /** The character the source uses as the enum value of each class. */
  function Letter(t: PassengerType): char
  {
    match t
    case Freshman => 'F'
    case Sophomore => 'O'
    case Junior => 'J'
    case Senior => 'S'
  }

  /** The integer code (0..3) a request uses for each class. */
  function CodeOf(t: PassengerType): int
  {
    match t
    case Freshman => 0
    case Sophomore => 1
    case Junior => 2
    case Senior => 3
  }

  /** The `switch(type)` of add_passenger: codes 0..3 name a class, any
      other code is rejected. */
  function TypeOfCode(code: int): (r: Option<PassengerType>)
    ensures r.Some? <==> 0 <= code <= 3
    ensures r.Some? ==> CodeOf(r.value) == code
  {
    if code == 0 then Some(Freshman)
    else if code == 1 then Some(Sophomore)
    else if code == 2 then Some(Junior)
    else if code == 3 then Some(Senior)
    else None
  }

  /** The letter switch of the write handler: f/F, o/O, j/J, s/S map to the
      codes 0, 1, 2, 3; every other character is rejected. */
  function CodeOfLetter(c: char): (r: Option<int>)
    ensures r.Some? <==> c in "fFoOjJsS"
    ensures r.Some? ==> 0 <= r.value <= 3 && TypeOfCode(r.value).Some?
    ensures r.Some? ==> Letter(TypeOfCode(r.value).value) == Upper(c)
  {
    if c == 'f' || c == 'F' then Some(0)
    else if c == 'o' || c == 'O' then Some(1)
    else if c == 'j' || c == 'J' then Some(2)
    else if c == 's' || c == 'S' then Some(3)
    else None
  }

  /** ASCII upper-casing of a letter (other characters are unchanged). */
  function Upper(c: char): char
  {
    if 'a' <= c <= 'z' then (c as int - 'a' as int + 'A' as int) as char else c
  }

  /** ASCII lower-casing of a letter (other characters are unchanged). */
  function Lower(c: char): char
  {
    if 'A' <= c <= 'Z' then (c as int - 'A' as int + 'a' as int) as char else c
  }

  /** Every class letter is decoded back to that class's code, in either case. */
  lemma LetterRoundTrip(t: PassengerType)
    ensures CodeOfLetter(Letter(t)) == Some(CodeOf(t))
    ensures CodeOfLetter(Lower(Letter(t))) == Some(CodeOf(t))
    ensures TypeOfCode(CodeOf(t)) == Some(t)
  {
  }

  /** Distinct classes have distinct letters, so a letter identifies a class. */
  lemma LetterInjective(t: PassengerType, u: PassengerType)
    ensures Letter(t) == Letter(u) <==> t == u
  {
  }

  /** A request's route is acceptable: both floors in range and distinct. */
  predicate ValidRoute(start: int, dest: int)
  {
    1 <= start <= MaxFloors && 1 <= dest <= MaxFloors && start != dest
  }

  /** Total weight of a list of passengers. */
  function SumWeights(s: seq<Passenger>): nat
  {
    if |s| == 0 then 0 else Weight(s[0].ptype) + SumWeights(s[1..])
  }

  /** Weight is additive over concatenation. */
  lemma {:induction false} SumWeightsAppend(a: seq<Passenger>, b: seq<Passenger>)
    ensures SumWeights(a + b) == SumWeights(a) + SumWeights(b)
    decreases |a|
  {
    if |a| == 0 {
      assert a + b == b;
    } else {
      assert (a + b)[1..] == a[1..] + b;
      SumWeightsAppend(a[1..], b);
    }
  }
}
