/** One tick of the lift kata (`ElevatorLogic.tick`) and the simulation loop
    (`ElevatorLogic.simulate`) as functions over a snapshot of the whole state,
    with the invariants they keep. */
module LiftSteps {
  import opened Collections
  import opened LiftModel

  /** A snapshot of the simulation: the building's floor queues, the lift and
      the stops recorded so far. */
  datatype Config = Config(
    floors: seq<seq<Person>>,
    riders: seq<Person>,
    position: int,
    direction: Direction,
    capacity: int,
    stops: seq<int>)

  /** The loop condition of `simulate`: somebody waits, somebody rides, or the
      lift is away from the ground floor. */
  predicate Running(c: Config) {
    !NoneWaiting(c.floors) || c.riders != [] || c.position != 0
  }

  /** `tick`: riders for this floor get off, people waiting here board, the lift
      picks its next floor (possibly turning), moves there, and records the floor
      as a stop if it moved. */
  function Step(c: Config): Config {
    var staying := Alight(c.riders, c.position);
    var boarding := Board(FloorAt(c.floors, c.position), |staying|, c.direction, c.capacity);
    var floors := SetFloor(c.floors, c.position, boarding.queue);
    var riders := staying + boarding.boarded;
    var move := Decide(floors, riders, c.position, c.direction);
    Config(floors, riders, move.floor, move.direction, c.capacity,
           if move.floor != c.position then c.stops + [move.floor] else c.stops)
  }

  /** `simulate` with at most `fuel` ticks (without a bound the loop need not end). */
  function Run(c: Config, fuel: nat): Config
    decreases fuel
  {
    if fuel == 0 || !Running(c) then c else Run(Step(c), fuel - 1)
  }

  /** `simulate` first records the lift's starting floor as a stop. */
  function Start(c: Config): Config {
    c.(stops := c.stops + [c.position])
  }

  /** The people waiting at floor `i`, one per destination (the stream in
      `theLift` that makes a `Person(i, dest)` of each destination); the
      construction fails if a destination is the floor itself. */
  function FloorQueue(i: int, destinations: seq<int>): (r: Result<seq<Person>>)
    ensures r.Ok? <==> i !in destinations
    ensures r.Ok? ==> |r.value| == |destinations| && forall j :: 0 <= j < |destinations| ==> r.value[j] == Person(i, destinations[j])
  {
    if destinations == [] then Ok([])
    else
      match NewPerson(i, destinations[0])
      case Err(message) => Err(message)
      case Ok(p) =>
        match FloorQueue(i, destinations[1..])
        case Err(message) => Err(message)
        case Ok(rest) =>
          assert destinations == [destinations[0]] + destinations[1..];
          Ok([p] + rest)
  }

  /** The building `theLift` sets up: floor `i` holds a person for each destination in `queues[i]`. */
  function Floors(queues: seq<seq<int>>): (floors: seq<seq<Person>>)
    ensures |floors| == |queues|
  {
    seq(|queues|, i requires 0 <= i < |queues| => seq(|queues[i]|, j requires 0 <= j < |queues[i]| => Person(i, queues[i][j])))
  }

  /** The state `theLift` hands to `simulate`: the lift on the ground floor,
      heading up, empty, no stops yet. */
  function Initial(queues: seq<seq<int>>, capacity: int): Config {
    Config(Floors(queues), [], 0, Up, capacity, [])
  }

  /** Nobody in the input asks for the floor they wait on. */
  ghost predicate ValidQueues(queues: seq<seq<int>>) {
    forall i, j :: 0 <= i < |queues| && 0 <= j < |queues[i]| ==> queues[i][j] != i
  }

  /** Every waiting person waits at their own floor, and wants another floor. */
  ghost predicate Placed(floors: seq<seq<Person>>) {
    forall i, p :: 0 <= i < |floors| && p in floors[i] ==> p.position == i && p.destination != i
  }

  /** The invariant of the simulation between ticks. */
  ghost predicate Inv(c: Config) {
    && c.capacity >= 1
    && |c.riders| <= c.capacity
    && (forall p :: p in c.riders ==> p.Desired() == c.direction)
    && Placed(c.floors)
    && c.stops != []
    && Last(c.stops) == c.position
    && NoStutter(c.stops)
  }

  // ---------------------------------------------------------------------------
  // What one tick does.

  /** The lift never carries more than its capacity. */
  lemma StepKeepsCapacity(c: Config)
    requires |c.riders| <= c.capacity
    ensures |Step(c).riders| <= c.capacity
  {
    hide Decide;
    var staying := Alight(c.riders, c.position);
    var boarding := Board(FloorAt(c.floors, c.position), |staying|, c.direction, c.capacity);
    assert |staying| + |boarding.boarded| <= c.capacity;
  }

  /** Nobody appears or disappears: the people waiting and riding after a tick,
      together with those who got off at this floor, are those before it. */
  lemma StepConserves(c: Config)
    ensures multiset(Waiting(Step(c).floors)) + multiset(Step(c).riders) + multiset(Arrived(c.riders, c.position))
            == multiset(Waiting(c.floors)) + multiset(c.riders)
  {
    hide Decide;
    var staying := Alight(c.riders, c.position);
    var queue := FloorAt(c.floors, c.position);
    var boarding := Board(queue, |staying|, c.direction, c.capacity);
    var floors := SetFloor(c.floors, c.position, boarding.queue);
    BoardLeavesFloor(c.floors, c.position, |staying|, c.direction, c.capacity);
    assert multiset(staying) + multiset(Arrived(c.riders, c.position)) == multiset(c.riders);
    assert Step(c).floors == floors;
    assert Step(c).riders == staying + boarding.boarded;
  }

  /** Boarding at the lift's floor moves people from the building into the lift. */
  lemma BoardLeavesFloor(floors: seq<seq<Person>>, liftPosition: int, onboard: int, d: Direction, capacity: int)
    ensures multiset(Waiting(SetFloor(floors, liftPosition, Board(FloorAt(floors, liftPosition), onboard, d, capacity).queue)))
            + multiset(Board(FloorAt(floors, liftPosition), onboard, d, capacity).boarded)
            == multiset(Waiting(floors))
  {
    var queue := FloorAt(floors, liftPosition);
    var b := Board(queue, onboard, d, capacity);
    BoardConserves(queue, onboard, d, capacity);
    if 0 <= liftPosition < |floors| {
      FlattenUpdate(floors, liftPosition, b.queue);
      var after := multiset(Flatten(floors[liftPosition := b.queue]));
      assert after + multiset(queue) == multiset(Flatten(floors)) + multiset(b.queue);
      assert multiset(queue) == multiset(b.queue) + multiset(b.boarded);
      assert (after + multiset(b.boarded)) + multiset(b.queue) == multiset(Flatten(floors)) + multiset(b.queue);
      MultisetCancel(after + multiset(b.boarded), multiset(Flatten(floors)), multiset(b.queue));
    } else {
      assert queue == [];
    }
  }

  /** Boarding only shortens the floor queue: the people still waiting after a
      tick were waiting before it, on the same floor. */
  lemma StepKeepsPlaced(c: Config)
    requires Placed(c.floors)
    ensures Placed(Step(c).floors)
  {
    hide Decide;
    var staying := Alight(c.riders, c.position);
    var queue := FloorAt(c.floors, c.position);
    var boarding := Board(queue, |staying|, c.direction, c.capacity);
    BoardConserves(queue, |staying|, c.direction, c.capacity);
    forall p | p in boarding.queue
      ensures p in queue
    {
      assert multiset(boarding.queue)[p] > 0;
      assert multiset(queue)[p] > 0;
    }
    ShortenKeepsPlaced(c.floors, c.position, boarding.queue);
    assert Step(c).floors == SetFloor(c.floors, c.position, boarding.queue);
  }

  /** Replacing a floor's queue by people taken from it keeps everybody placed. */
  lemma ShortenKeepsPlaced(floors: seq<seq<Person>>, f: int, q: seq<Person>)
    requires Placed(floors)
    requires forall p :: p in q ==> p in FloorAt(floors, f)
    ensures Placed(SetFloor(floors, f, q))
  {
  }

  /** Everybody in the lift travels the lift's way: people board only in the
      lift's direction, and the lift turns only when no rider wants to go on. */
  lemma StepKeepsRidersDirection(c: Config)
    requires forall p :: p in c.riders ==> p.Desired() == c.direction
    ensures forall p :: p in Step(c).riders ==> p.Desired() == Step(c).direction
  {
    var staying := Alight(c.riders, c.position);
    var boarding := Board(FloorAt(c.floors, c.position), |staying|, c.direction, c.capacity);
    var floors := SetFloor(c.floors, c.position, boarding.queue);
    var riders := staying + boarding.boarded;
    SelectMembers(c.riders, HeadsElsewhere(c.position));
    BoardedWantDirection(FloorAt(c.floors, c.position), |staying|, c.direction, c.capacity);
    assert forall p :: p in riders ==> p.Desired() == c.direction;
    if !(NoneWaiting(floors) && riders == []) {
      DecideSpec(floors, riders, c.position, c.direction);
    }
  }

  /** A stop is recorded exactly when the lift moves, so the last stop is where
      the lift is and no floor is recorded twice in a row. */
  lemma StepKeepsStops(c: Config)
    requires c.stops != [] && Last(c.stops) == c.position && NoStutter(c.stops)
    ensures Step(c).stops != [] && Last(Step(c).stops) == Step(c).position && NoStutter(Step(c).stops)
    ensures Step(c).stops == c.stops || Step(c).stops == c.stops + [Step(c).position]
  {
    hide Decide;
  }

  lemma StepKeepsStopsPrefix(c: Config)
    ensures |c.stops| <= |Step(c).stops| && Step(c).stops[..|c.stops|] == c.stops
  {
    hide Decide;
  }

  lemma StepPreservesInv(c: Config)
    requires Inv(c)
    ensures Inv(Step(c))
  {
    StepKeepsCapacity(c);
    StepKeepsPlaced(c);
    StepKeepsRidersDirection(c);
    StepKeepsStops(c);
  }

  // ---------------------------------------------------------------------------
  // The simulation.

  /** The simulation starts in a state that satisfies the invariant. */
  lemma InitialInv(queues: seq<seq<int>>, capacity: int)
    requires ValidQueues(queues) && capacity >= 1
    ensures Inv(Start(Initial(queues, capacity)))
    ensures Start(Initial(queues, capacity)).stops == [0]
  {
    var floors := Floors(queues);
    forall i: int, p: Person | 0 <= i < |floors| && p in floors[i]
      ensures p.position == i && p.destination != i
    {
      var j :| 0 <= j < |floors[i]| && floors[i][j] == p;
    }
  }

  lemma {:induction false} RunPreservesInv(c: Config, fuel: nat)
    requires Inv(c)
    ensures Inv(Run(c, fuel))
    decreases fuel
  {
    hide Step;
    if fuel != 0 && Running(c) {
      StepPreservesInv(c);
      RunPreservesInv(Step(c), fuel - 1);
    }
  }

  /** The simulation only ever appends stops. */
  lemma {:induction false} RunExtendsStops(c: Config, fuel: nat)
    ensures |c.stops| <= |Run(c, fuel).stops| && Run(c, fuel).stops[..|c.stops|] == c.stops
    decreases fuel
  {
    hide Step;
    if fuel != 0 && Running(c) {
      StepKeepsStopsPrefix(c);
      RunExtendsStops(Step(c), fuel - 1);
      var s := Run(Step(c), fuel - 1).stops;
      assert s[..|Step(c).stops|][..|c.stops|] == s[..|c.stops|];
    }
  }

  /** Nobody ever joins the simulation: everyone waiting or riding after any
      number of ticks was waiting or riding at the start, so their number never grows. */
  lemma {:induction false} RunNeverAddsPeople(c: Config, fuel: nat)
    ensures multiset(Waiting(Run(c, fuel).floors)) + multiset(Run(c, fuel).riders)
            <= multiset(Waiting(c.floors)) + multiset(c.riders)
    ensures |Waiting(Run(c, fuel).floors)| + |Run(c, fuel).riders| <= |Waiting(c.floors)| + |c.riders|
    decreases fuel
  {
    hide Step;
    if fuel != 0 && Running(c) {
      StepConserves(c);
      var a := Arrived(c.riders, c.position);
      assert |multiset(Waiting(Step(c).floors)) + multiset(Step(c).riders) + multiset(a)|
             == |multiset(Waiting(c.floors)) + multiset(c.riders)|;
      RunNeverAddsPeople(Step(c), fuel - 1);
    }
  }

  /** When the simulation finishes, nobody waits, nobody rides, and the lift and
      the last stop are the ground floor. */
  lemma FinishedAtGround(c: Config)
    requires Inv(c) && !Running(c)
    ensures Waiting(c.floors) == [] && c.riders == [] && c.position == 0 && Last(c.stops) == 0
  {
    IsEmptyMeansNobodyWaits(c.floors);
  }
}
