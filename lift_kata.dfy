/** The objects of the lift kata (`Lift`, `Building`, `State`) and the methods
    of `ElevatorLogic` and `LiftKata` that update them in place. Each method is
    proved to compute the corresponding function of modules LiftModel and
    LiftSteps, whose properties are proved there. */
module LiftKata {
  import opened Collections
  import opened LiftModel
  import opened LiftSteps

  class Lift {
    var position: int
    var people: seq<Person>
    var direction: Direction
    const capacity: int

    constructor (position: int, direction: Direction, capacity: int)
      ensures this.position == position && this.direction == direction && this.capacity == capacity
      ensures people == []
    {
      this.position := position;
      this.people := [];
      this.direction := direction;
      this.capacity := capacity;
    }

    /** `hasRoom`, the negation of `isFull` (`size() == capacity`). */
    predicate HasRoom()
      reads this
    {
      |people| != capacity
    }

    predicate HasPeople()
      reads this
    {
      people != []
    }

    /** `accepts`: the lift has room and the person wants to travel its way. */
    predicate Accepts(p: Person)
      reads this
    {
      HasRoom() && p.Desired() == direction
    }

    /** `turn`: reverse the direction of travel. */
    method Turn()
      modifies this
      ensures direction == Flip(old(direction)) && direction != old(direction)
      ensures position == old(position) && people == old(people)
    {
      direction := if direction == Up then Down else Up;
    }
  }

  /** The building: the queue of each floor, which boarding shortens in place. */
  class Building {
    var floors: seq<seq<Person>>

    constructor (floors: seq<seq<Person>>)
      ensures this.floors == floors
    {
      this.floors := floors;
    }

    /** `isEmpty`: every floor queue is empty. */
    predicate IsEmpty()
      reads this
    {
      NoneWaiting(floors)
    }
  }

  class State {
    const building: Building
    const lift: Lift
    var stops: seq<int>

    constructor (building: Building, lift: Lift)
      ensures this.building == building && this.lift == lift && stops == []
    {
      this.building := building;
      this.lift := lift;
      this.stops := [];
    }

    /** The snapshot of the objects that the functions of LiftSteps work on. */
    function Abstract(): Config
      reads this, building, lift
    {
      Config(building.floors, lift.people, lift.position, lift.direction, lift.capacity, stops)
    }
  }

  /** `getNextPosition`: the floor `Decide` picks; the lift turns exactly when
      `Decide` says it does, and nothing else about the lift changes. */
  method GetNextPosition(building: Building, lift: Lift) returns (next: int)
    modifies lift
    ensures Move(next, lift.direction) == Decide(building.floors, lift.people, lift.position, old(lift.direction))
    ensures lift.position == old(lift.position) && lift.people == old(lift.people)
  {
    if building.IsEmpty() && !lift.HasPeople() {
      return 0;
    }
    var nearestRequestedPassenger := RiderTarget(lift.people, lift.direction);
    var nearestRequestInSameDirection := PickupAhead(building.floors, lift.position, lift.direction);
    var combinedOptions := nearestRequestedPassenger.Elements() + nearestRequestInSameDirection.Elements();
    match Nearest(combinedOptions, lift.position) {
      case Some(f) =>
        next := f;
      case None =>
        lift.Turn();
        next := EmptyLiftNext(building.floors, lift.position, lift.direction);
    }
  }

  /** The boarding loop of `tick`: while the lift has room and somebody in the
      floor's queue accepts it, the first such person leaves the queue and
      joins the back of the lift. Returns what is left of the queue. */
  method BoardFrom(lift: Lift, queue: seq<Person>) returns (left: seq<Person>)
    modifies lift
    ensures left == Board(queue, |old(lift.people)|, lift.direction, lift.capacity).queue
    ensures lift.people == old(lift.people) + Board(queue, |old(lift.people)|, lift.direction, lift.capacity).boarded
    ensures lift.position == old(lift.position) && lift.direction == old(lift.direction)
  {
    left := queue;
    ghost var people0 := lift.people;
    while lift.HasRoom() && exists p :: p in left && lift.Accepts(p)
      invariant lift.position == old(lift.position) && lift.direction == old(lift.direction)
      invariant Board(left, |lift.people|, lift.direction, lift.capacity).queue ==
                Board(queue, |people0|, lift.direction, lift.capacity).queue
      invariant lift.people + Board(left, |lift.people|, lift.direction, lift.capacity).boarded ==
                people0 + Board(queue, |people0|, lift.direction, lift.capacity).boarded
      decreases |left|
    {
      var j := FirstGoing(left, lift.direction).value;
      var person := left[j];
      BoardRemoveFirst(left, j, |lift.people|, lift.direction, lift.capacity);
      RemoveFirstAt(left, j);
      ghost var later := Board(left[..j] + left[j + 1..], |lift.people| + 1, lift.direction, lift.capacity).boarded;
      assert (lift.people + [person]) + later == lift.people + ([person] + later);
      left := RemoveFirst(left, person);
      lift.people := lift.people + [person];
    }
    BoardIdle(left, |lift.people|, lift.direction, lift.capacity);
  }

  /** `tick`: one step of the simulation, exactly as `Step` describes it. */
  method Tick(state: State)
    modifies state, state.lift, state.building
    ensures state.Abstract() == Step(old(state.Abstract()))
  {
    hide Decide;
    var lift := state.lift;
    var building := state.building;

    // off-board people
    lift.people := Alight(lift.people, lift.position);

    // the current floor's queue (empty for a floor the building does not have) is shortened in place
    var queue := FloorAt(building.floors, lift.position);
    queue := BoardFrom(lift, queue);
    building.floors := SetFloor(building.floors, lift.position, queue);

    var oldPosition := lift.position;
    var nextPosition := GetNextPosition(building, lift);
    lift.position := nextPosition;

    if oldPosition != nextPosition {
      state.stops := state.stops + [nextPosition];
    }
  }

  /** `simulate`, stopped after at most `fuel` ticks: the final state is the
      one `Run` computes, and `finished` tells whether the loop condition failed
      (rather than the fuel running out). */
  method Simulate(state: State, fuel: nat) returns (finished: bool)
    modifies state, state.lift, state.building
    ensures state.Abstract() == Run(Start(old(state.Abstract())), fuel)
    ensures finished <==> !Running(state.Abstract())
  {
    hide Step;
    state.stops := state.stops + [state.lift.position];
    ghost var start := state.Abstract();
    var ticks := 0;
    while ticks < fuel && (!state.building.IsEmpty() || state.lift.HasPeople() || state.lift.position != 0)
      invariant ticks <= fuel
      invariant Run(state.Abstract(), fuel - ticks) == Run(start, fuel)
      decreases fuel - ticks
    {
      Tick(state);
      ticks := ticks + 1;
    }
    finished := !(!state.building.IsEmpty() || state.lift.HasPeople() || state.lift.position != 0);
  }

  /** What `theLift` returns: the stops, or the failure to construct a person.
      `Unfinished` is the model's own outcome for a run that the fuel cut short. */
  datatype Outcome = Rejected(message: string) | Finished(stops: seq<int>) | Unfinished(stops: seq<int>)

  /** `theLift`: build the floors from the destinations, put an empty lift on
      the ground floor heading up, and simulate. */
  method TheLift(queues: seq<seq<int>>, capacity: int, fuel: nat) returns (r: Outcome)
    requires capacity >= 1
    ensures r.Rejected? <==> !ValidQueues(queues)
    ensures !r.Rejected? ==> r.stops == Run(Start(Initial(queues, capacity)), fuel).stops
    ensures r.Finished? <==> ValidQueues(queues) && !Running(Run(Start(Initial(queues, capacity)), fuel))
    // a finished run starts and ends on the ground floor and never records a floor twice in a row
    ensures r.Finished? ==> r.stops != [] && r.stops[0] == 0 && Last(r.stops) == 0 && NoStutter(r.stops)
  {
    hide Step, Run;
    var floors: seq<seq<Person>> := [];
    for i := 0 to |queues|
      invariant floors == Floors(queues[..i])
      invariant forall k, j :: 0 <= k < i && 0 <= j < |queues[k]| ==> queues[k][j] != k
    {
      match FloorQueue(i, queues[i]) {
        case Err(message) =>
          return Rejected(message);
        case Ok(people) =>
          assert queues[..i + 1] == queues[..i] + [queues[i]];
          assert people == Floors(queues[..i + 1])[i];
          floors := floors + [people];
      }
    }
    assert queues[..|queues|] == queues;
    var lift := new Lift(0, Up, capacity);
    var building := new Building(floors);
    var state := new State(building, lift);
    assert state.Abstract() == Initial(queues, capacity);
    var finished := Simulate(state, fuel);
    ghost var final := Run(Start(Initial(queues, capacity)), fuel);
    if finished {
      InitialInv(queues, capacity);
      RunPreservesInv(Start(Initial(queues, capacity)), fuel);
      RunExtendsStops(Start(Initial(queues, capacity)), fuel);
      FinishedAtGround(final);
      r := Finished(state.stops);
    } else {
      r := Unfinished(state.stops);
    }
  }
}
