/** Concrete runs of the lift kata. The first shows that `simulate` need not
    terminate: with `queues = [[], [], [0, 0]]` and capacity 1 the lift ends up
    shuttling between floors 2 and 0 for ever, because a down-goer on floor 2 is
    refused while the lift points up, and the empty lift going down falls back to
    the highest down-goer ABOVE it. */
module LiftExamples {
  import opened Collections
  import opened LiftModel
  import opened LiftSteps

  /** One person is left on floor 2, wanting the ground floor. */
  const Left: seq<seq<Person>> := [[], [], [Person(2, 0)]]

  /** The lift, empty, on floor 2 heading up. */
  function AtTop(stops: seq<int>): Config {
    Config(Left, [], 2, Up, 1, stops)
  }

  /** The lift, empty, on the ground floor heading down. */
  function AtGround(stops: seq<int>): Config {
    Config(Left, [], 0, Down, 1, stops)
  }

  /** On floor 2 heading up the lift refuses the down-goer, finds nobody ahead,
      turns down and, with no up-goer below and no down-goer above, heads for
      the ground floor. */
  lemma TopToGround(stops: seq<int>)
    ensures Step(AtTop(stops)) == AtGround(stops + [0])
  {
    var c := AtTop(stops);
    assert Alight([], 2) == [];
    assert FloorAt(Left, 2) == [Person(2, 0)];
    assert Person(2, 0).Desired() == Down;
    assert Board([Person(2, 0)], 0, Up, 1) == Boarding([Person(2, 0)], []);
    assert SetFloor(Left, 2, [Person(2, 0)]) == Left;
    assert Waiting(Left) == [Person(2, 0)];
    assert PeopleGoingUp(Left) == [];
    assert PeopleGoingDown(Left) == [Person(2, 0)];
    assert RiderTarget([], Up) == None;
    assert PickupAhead(Left, 2, Up) == None;
    assert Calls(Left, Up, 2, Down) == [];
    assert Calls(Left, Down, 2, Up) == [];
    assert EmptyLiftNext(Left, 2, Down) == 0;
    assert Decide(Left, [], 2, Up) == Move(0, Down);
  }

  /** On the ground floor heading down the lift finds nobody ahead, turns up and
      heads for the highest down-goer above it: floor 2 again. */
  lemma GroundToTop(stops: seq<int>)
    ensures Step(AtGround(stops)) == AtTop(stops + [2])
  {
    assert Alight([], 0) == [];
    assert FloorAt(Left, 0) == [];
    assert Board([], 0, Down, 1) == Boarding([], []);
    assert SetFloor(Left, 0, []) == Left;
    assert Waiting(Left) == [Person(2, 0)];
    assert PeopleGoingUp(Left) == [];
    assert PeopleGoingDown(Left) == [Person(2, 0)];
    assert RiderTarget([], Down) == None;
    assert Calls(Left, Down, 0, Down) == [];
    assert PickupAhead(Left, 0, Down) == None;
    assert Calls(Left, Down, 0, Up) == [Person(2, 0)];
    assert Positions([Person(2, 0)]) == [2];
    assert EmptyLiftNext(Left, 0, Up) == 2;
    assert Decide(Left, [], 0, Down) == Move(2, Up);
  }

  /** From either state of the cycle, however many ticks are allowed, the
      simulation is still running: the loop of `simulate` never exits. */
  lemma {:induction false} NeverFinishes(stops: seq<int>, fuel: nat)
    ensures Running(Run(AtTop(stops), fuel)) && Running(Run(AtGround(stops), fuel))
    decreases fuel
  {
    hide Step;
    assert Left[2] != [];
    if fuel > 0 {
      TopToGround(stops);
      GroundToTop(stops);
      NeverFinishes(stops + [0], fuel - 1);
      NeverFinishes(stops + [2], fuel - 1);
    }
  }

  const Input: seq<seq<int>> := [[], [], [0, 0]]

  /** The building `theLift` builds from `Input`. */
  const Full: seq<seq<Person>> := [[], [], [Person(2, 0), Person(2, 0)]]

  /** Three ticks take the lift from the start to the top of the cycle: it
      turns down at once to fetch the down-goers on floor 2, takes one of them
      (capacity 1) to the ground floor, and there turns up again. */
  lemma {:induction false} ReachesCycle()
    ensures Start(Initial(Input, 1)) == Config(Full, [], 0, Up, 1, [0])
    ensures Step(Start(Initial(Input, 1))) == Config(Full, [], 2, Down, 1, [0, 2])
    ensures Step(Step(Start(Initial(Input, 1)))) == Config(Left, [Person(2, 0)], 0, Down, 1, [0, 2, 0])
    ensures Step(Step(Step(Start(Initial(Input, 1))))) == AtTop([0, 2, 0, 2])
  {
    hide Step;
    assert Floors(Input)[2] == Full[2];
    assert Floors(Input) == Full;
    FirstTick();
    SecondTick();
    ThirdTick();
  }

  /** A tick whose parts are known: `staying` are the riders who do not get
      off, `b` is the boarding at the lift's floor, and `riders` is who rides
      on; the lift then moves where `Decide` sends it. */
  lemma KnownStep(c: Config, staying: seq<Person>, b: Boarding, riders: seq<Person>)
    requires Alight(c.riders, c.position) == staying
    requires Board(FloorAt(c.floors, c.position), |staying|, c.direction, c.capacity) == b
    requires staying + b.boarded == riders
    ensures var floors := SetFloor(c.floors, c.position, b.queue);
      var m := Decide(floors, riders, c.position, c.direction);
      Step(c) == Config(floors, riders, m.floor, m.direction, c.capacity,
                        if m.floor != c.position then c.stops + [m.floor] else c.stops)
  {
    hide Decide;
  }

  lemma FirstTick()
    ensures Step(Config(Full, [], 0, Up, 1, [0])) == Config(Full, [], 2, Down, 1, [0, 2])
  {
    hide Decide;
    assert FloorAt(Full, 0) == [] && Board([], 0, Up, 1) == Boarding([], []);
    assert SetFloor(Full, 0, []) == Full;
    KnownStep(Config(Full, [], 0, Up, 1, [0]), [], Boarding([], []), []);
    FirstDecision();
  }

  /** On the ground floor heading up, nobody rides and nobody waits to go up:
      the lift turns down and heads for the highest down-goer above it. */
  lemma FirstDecision()
    ensures Decide(Full, [], 0, Up) == Move(2, Down)
  {
    assert Waiting(Full) == Full[2] by {
      assert Flatten(Full[2..]) == Full[2] + Flatten(Full[3..]);
      assert Flatten(Full[1..]) == Flatten(Full[2..]);
    }
    assert PeopleGoingUp(Full) == [];
    assert PickupAhead(Full, 0, Up) == None;
    assert Calls(Full, Up, 0, Down) == [];
    assert Calls(Full, Down, 0, Up) == Full[2];
    assert Positions(Full[2]) == [2, 2];
    assert EmptyLiftNext(Full, 0, Down) == 2;
  }

  lemma SecondTick()
    ensures Step(Config(Full, [], 2, Down, 1, [0, 2])) == Config(Left, [Person(2, 0)], 0, Down, 1, [0, 2, 0])
  {
    hide Decide;
    var p := Person(2, 0);
    assert p.Desired() == Down;
    assert Alight([], 2) == [] && FloorAt(Full, 2) == [p, p];
    assert Board([p], 1, Down, 1) == Boarding([p], []);
    assert Board([p, p], 0, Down, 1) == Boarding([p], [p]);
    assert SetFloor(Full, 2, [p]) == Left;
    KnownStep(Config(Full, [], 2, Down, 1, [0, 2]), [], Boarding([p], [p]), [p]);
    SecondDecision();
  }

  /** On floor 2 with one down-goer aboard and nobody else going down: the
      lift heads for the rider's destination, the ground floor. */
  lemma SecondDecision()
    ensures Decide(Left, [Person(2, 0)], 2, Down) == Move(0, Down)
  {
    var p := Person(2, 0);
    assert p.Desired() == Down;
    assert Waiting(Left) == [p] by {
      assert Flatten(Left[2..]) == Left[2] + Flatten(Left[3..]);
      assert Flatten(Left[1..]) == Flatten(Left[2..]);
    }
    assert PeopleGoingDown(Left) == [p];
    assert Going([p], Down) == [p];
    assert RiderTarget([p], Down) == Some(0);
    assert Calls(Left, Down, 2, Down) == [];
    assert PickupAhead(Left, 2, Down) == None;
    assert Nearest([0], 2) == Some(0);
  }

  lemma ThirdTick()
    ensures Step(Config(Left, [Person(2, 0)], 0, Down, 1, [0, 2, 0])) == AtTop([0, 2, 0, 2])
  {
    assert Alight([Person(2, 0)], 0) == [];
    GroundToTop([0, 2, 0]);
  }

  /** So `theLift([[], [], [0, 0]], 1)` never returns: however much fuel the
      simulation is given, it is still running when the fuel runs out. */
  lemma NeverFinishesFromInput(fuel: nat)
    ensures Running(Run(Start(Initial(Input, 1)), fuel))
  {
    hide Step;
    var c0 := Start(Initial(Input, 1));
    ReachesCycle();
    var c1, c2, c3 := Step(c0), Step(Step(c0)), Step(Step(Step(c0)));
    assert c0.floors[2] != [] && c1.floors[2] != [] && c2.floors[2] != [];
    if fuel >= 3 {
      assert Run(c0, fuel) == Run(c1, fuel - 1) == Run(c2, fuel - 2) == Run(c3, fuel - 3);
      NeverFinishes([0, 2, 0, 2], fuel - 3);
    } else if fuel == 2 {
      assert Run(c0, fuel) == Run(c1, 1) == Run(c2, 0);
    } else if fuel == 1 {
      assert Run(c0, fuel) == Run(c1, 0);
    }
  }

  /** A run that finishes: one person on the ground floor wants floor 2. */
  const UpAndBack: seq<seq<int>> := [[2], [], []]

  /** The lift takes them up, comes back empty and stops: `theLift` returns
      `[0, 2, 0]`. */
  lemma UpAndBackFinishes()
    ensures !Running(Run(Start(Initial(UpAndBack, 5)), 2))
    ensures Run(Start(Initial(UpAndBack, 5)), 2).stops == [0, 2, 0]
  {
    hide Step;
    var p := Person(0, 2);
    var c0 := Start(Initial(UpAndBack, 5));
    assert Floors(UpAndBack)[0] == [p];
    assert Floors(UpAndBack) == [[p], [], []];
    assert c0 == Config([[p], [], []], [], 0, Up, 5, [0]);
    UpAndBackFirst();
    UpAndBackSecond();
    var c1 := Step(c0);
    assert c0.floors[0] != [] && c1.riders != [];
    assert Run(c0, 2) == Run(c1, 1) == Run(Step(c1), 0);
  }

  /** At the ground floor the person boards and the lift heads for floor 2. */
  lemma UpAndBackFirst()
    ensures Step(Config([[Person(0, 2)], [], []], [], 0, Up, 5, [0]))
            == Config([[], [], []], [Person(0, 2)], 2, Up, 5, [0, 2])
  {
    hide Decide;
    var p := Person(0, 2);
    var floors := [[], [], []];
    assert p.Desired() == Up;
    assert Board([], 1, Up, 5) == Boarding([], []);
    assert Board([p], 0, Up, 5) == Boarding([], [p]);
    assert SetFloor([[p], [], []], 0, []) == floors;
    KnownStep(Config([[p], [], []], [], 0, Up, 5, [0]), [], Boarding([], [p]), [p]);
    UpAndBackDecision();
  }

  lemma UpAndBackDecision()
    ensures Decide([[], [], []], [Person(0, 2)], 0, Up) == Move(2, Up)
  {
    var p := Person(0, 2);
    var floors: seq<seq<Person>> := [[], [], []];
    assert Waiting(floors) == [] by {
      assert Flatten(floors[2..]) == [];
      assert Flatten(floors[1..]) == [];
    }
    assert p.Desired() == Up;
    assert Going([p], Up) == [p] by {
      assert Meets(p, Wants(Up)) && [p][1..] == [];
      assert Select([], Wants(Up)) == [];
    }
    assert RiderTarget([p], Up) == Some(2);
    assert PickupAhead(floors, 0, Up) == None;
    assert Nearest([2], 0) == Some(2);
  }

  /** At floor 2 the person gets off; with nobody left the lift heads home. */
  lemma UpAndBackSecond()
    ensures Step(Config([[], [], []], [Person(0, 2)], 2, Up, 5, [0, 2]))
            == Config([[], [], []], [], 0, Up, 5, [0, 2, 0])
  {
    var floors: seq<seq<Person>> := [[], [], []];
    assert Alight([Person(0, 2)], 2) == [];
    assert Board([], 0, Up, 5) == Boarding([], []);
    assert SetFloor(floors, 2, []) == floors;
    assert NoneWaiting(floors);
  }

  /** Three people on floor 2 of a seven-floor building want floor 5. */
  const ThreeUp: seq<seq<int>> := [[], [], [5, 5, 5], [], [], [], []]

  const Riders: seq<Person> := [Person(2, 5), Person(2, 5), Person(2, 5)]

  const Before: seq<seq<Person>> := [[], [], Riders, [], [], [], []]

  const Empty: seq<seq<Person>> := [[], [], [], [], [], [], []]

  /** The lift fetches all three, takes them up and returns: `theLift` returns
      `[0, 2, 5, 0]`. */
  lemma ThreeUpFinishes()
    ensures !Running(Run(Start(Initial(ThreeUp, 5)), 3))
    ensures Run(Start(Initial(ThreeUp, 5)), 3).stops == [0, 2, 5, 0]
  {
    hide Step;
    var c0 := Start(Initial(ThreeUp, 5));
    assert Floors(ThreeUp)[2] == Riders;
    assert Floors(ThreeUp) == Before;
    assert c0 == Config(Before, [], 0, Up, 5, [0]);
    ThreeUpFirst();
    ThreeUpSecond();
    ThreeUpThird();
    var c1 := Step(c0);
    var c2 := Step(c1);
    assert c0.floors[2] != [] && c1.floors[2] != [] && c2.riders != [];
    assert Run(c0, 3) == Run(c1, 2) == Run(c2, 1) == Run(Step(c2), 0);
  }

  lemma WaitingBefore()
    ensures Waiting(Before) == Riders
    ensures Waiting(Empty) == []
  {
    FlattenEmpty(Before[3..]);
    FlattenEmpty(Empty);
    assert Flatten(Before[2..]) == Riders + Flatten(Before[3..]);
    assert Flatten(Before[1..]) == Flatten(Before[2..]);
  }

  /** On the ground floor the lift sees the up-goers on floor 2 and heads there. */
  lemma ThreeUpFirst()
    ensures Step(Config(Before, [], 0, Up, 5, [0])) == Config(Before, [], 2, Up, 5, [0, 2])
  {
    hide Decide;
    assert FloorAt(Before, 0) == [] && Board([], 0, Up, 5) == Boarding([], []);
    assert SetFloor(Before, 0, []) == Before;
    KnownStep(Config(Before, [], 0, Up, 5, [0]), [], Boarding([], []), []);
    ThreeUpFirstDecision();
  }

  lemma ThreeUpFirstDecision()
    ensures Decide(Before, [], 0, Up) == Move(2, Up)
  {
    WaitingBefore();
    assert Before[2] != [];
    assert Riders[0].Desired() == Up;
    assert PeopleGoingUp(Before) == Riders;
    assert Calls(Before, Up, 0, Up) == Riders;
    assert Positions(Riders) == [2, 2, 2];
    assert PickupAhead(Before, 0, Up) == Some(2);
    assert Nearest([2], 0) == Some(2);
  }

  /** On floor 2 all three board and the lift heads for their floor. */
  lemma ThreeUpSecond()
    ensures Step(Config(Before, [], 2, Up, 5, [0, 2])) == Config(Empty, Riders, 5, Up, 5, [0, 2, 5])
  {
    hide Decide;
    var q := Person(2, 5);
    assert Alight([], 2) == [] && FloorAt(Before, 2) == Riders;
    assert q.Desired() == Up;
    assert Board([], 3, Up, 5) == Boarding([], []);
    assert Board([q], 2, Up, 5) == Boarding([], [q]);
    assert Board([q, q], 1, Up, 5) == Boarding([], [q, q]);
    assert Board(Riders, 0, Up, 5) == Boarding([], Riders);
    assert SetFloor(Before, 2, []) == Empty;
    KnownStep(Config(Before, [], 2, Up, 5, [0, 2]), [], Boarding([], Riders), Riders);
    ThreeUpSecondDecision();
  }

  lemma ThreeUpSecondDecision()
    ensures Decide(Empty, Riders, 2, Up) == Move(5, Up)
  {
    WaitingBefore();
    assert Riders[0].Desired() == Up;
    assert Going(Riders, Up) == Riders;
    assert Destinations(Riders) == [5, 5, 5];
    assert RiderTarget(Riders, Up) == Some(5);
    assert PickupAhead(Empty, 2, Up) == None;
    assert Nearest([5], 2) == Some(5);
  }

  /** On floor 5 they all get off, and the empty lift heads home. */
  lemma ThreeUpThird()
    ensures Step(Config(Empty, Riders, 5, Up, 5, [0, 2, 5])) == Config(Empty, [], 0, Up, 5, [0, 2, 5, 0])
  {
    assert Alight(Riders, 5) == [];
    assert Board([], 0, Up, 5) == Boarding([], []);
    assert SetFloor(Empty, 5, []) == Empty;
    assert NoneWaiting(Empty);
  }

  /** Three people going down, on floors 1, 4 and 5 of a seven-floor building. */
  const Scattered: seq<seq<int>> := [[], [0], [], [], [2], [3], []]

  /** The building `theLift` builds from `Scattered`. */
  const ScatteredFloors: seq<seq<Person>> := [[], [Person(1, 0)], [], [], [Person(4, 2)], [Person(5, 3)], []]

  /** The building once the passenger of floor 5 has boarded. */
  const Floor5Left: seq<seq<Person>> := [[], [Person(1, 0)], [], [], [Person(4, 2)], [], []]

  /** The building once the passenger of floor 4 has boarded too. */
  const Floor1Waits: seq<seq<Person>> := [[], [Person(1, 0)], [], [], [], [], []]

  const DownRiders: seq<Person> := [Person(5, 3), Person(4, 2)]

  /** The whole run: `theLift(Scattered, 5)` returns `[0, 5, 4, 2, 3, 1, 0]`.
      Heading down from floor 4 the lift passes floor 3, where a rider wants to
      get off, because candidate A is the least destination; from floor 2 it
      then goes back up to floor 3 while still pointing down. */
  lemma ScatteredFinishes()
    ensures !Running(Run(Start(Initial(Scattered, 5)), 7))
    ensures Run(Start(Initial(Scattered, 5)), 7).stops == [0, 5, 4, 2, 3, 1, 0]
  {
    hide Step;
    var c0 := Start(Initial(Scattered, 5));
    assert Floors(Scattered)[1] == ScatteredFloors[1];
    assert Floors(Scattered)[4] == ScatteredFloors[4];
    assert Floors(Scattered)[5] == ScatteredFloors[5];
    assert Floors(Scattered) == ScatteredFloors;
    assert c0 == Config(ScatteredFloors, [], 0, Up, 5, [0]);
    ScatteredFirst();
    ScatteredSecond();
    ScatteredThird();
    ScatteredFourth();
    ScatteredFifth();
    ScatteredSixth();
    ScatteredSeventh();
    var c1 := Step(c0);
    var c2 := Step(c1);
    var c3 := Step(c2);
    var c4 := Step(c3);
    var c5 := Step(c4);
    var c6 := Step(c5);
    assert c0.floors[1] != [] && c1.floors[1] != [] && c2.floors[1] != [];
    assert c3.floors[1] != [] && c4.floors[1] != [] && c5.floors[1] != [] && c6.riders != [];
    assert Run(c0, 7) == Run(c1, 6) == Run(c2, 5) == Run(c3, 4);
    assert Run(c3, 4) == Run(c4, 3) == Run(c5, 2) == Run(c6, 1) == Run(Step(c6), 0);
  }

  lemma WaitingScattered()
    ensures Waiting(ScatteredFloors) == [Person(1, 0), Person(4, 2), Person(5, 3)]
    ensures Waiting(Floor5Left) == [Person(1, 0), Person(4, 2)]
    ensures Waiting(Floor1Waits) == [Person(1, 0)]
  {
    FlattenEmpty(ScatteredFloors[6..]);
    assert Flatten(ScatteredFloors[5..]) == [Person(5, 3)] + Flatten(ScatteredFloors[6..]);
    assert Flatten(ScatteredFloors[4..]) == [Person(4, 2)] + Flatten(ScatteredFloors[5..]);
    assert Flatten(ScatteredFloors[2..]) == Flatten(ScatteredFloors[4..]);
    assert Flatten(ScatteredFloors[1..]) == [Person(1, 0)] + Flatten(ScatteredFloors[2..]);
    FlattenEmpty(Floor5Left[5..]);
    assert Flatten(Floor5Left[4..]) == [Person(4, 2)] + Flatten(Floor5Left[5..]);
    assert Flatten(Floor5Left[2..]) == Flatten(Floor5Left[4..]);
    assert Flatten(Floor5Left[1..]) == [Person(1, 0)] + Flatten(Floor5Left[2..]);
    FlattenEmpty(Floor1Waits[2..]);
    assert Flatten(Floor1Waits[1..]) == [Person(1, 0)] + Flatten(Floor1Waits[2..]);
  }

  /** On the ground floor heading up nobody wants up: the lift turns and heads
      for the highest down-goer above it, on floor 5. */
  lemma ScatteredFirst()
    ensures Step(Config(ScatteredFloors, [], 0, Up, 5, [0])) == Config(ScatteredFloors, [], 5, Down, 5, [0, 5])
  {
    hide Decide;
    assert FloorAt(ScatteredFloors, 0) == [] && Board([], 0, Up, 5) == Boarding([], []);
    assert SetFloor(ScatteredFloors, 0, []) == ScatteredFloors;
    KnownStep(Config(ScatteredFloors, [], 0, Up, 5, [0]), [], Boarding([], []), []);
    ScatteredFirstDecision();
  }

  lemma ScatteredFirstDecision()
    ensures Decide(ScatteredFloors, [], 0, Up) == Move(5, Down)
  {
    hide EmptyLiftNext, PeopleGoingUp, PeopleGoingDown;
    ScatteredGoers();
    assert ScatteredFloors[1] != [] && !NoneWaiting(ScatteredFloors);
    assert Calls(ScatteredFloors, Up, 0, Up) == [];
    assert PickupAhead(ScatteredFloors, 0, Up) == None;
    assert RiderTarget([], Up) == None;
    HighestDownGoer();
  }

  /** Everybody waiting in `ScatteredFloors` wants to go down. */
  lemma ScatteredGoers()
    ensures PeopleGoingUp(ScatteredFloors) == []
    ensures PeopleGoingDown(ScatteredFloors) == [Person(1, 0), Person(4, 2), Person(5, 3)]
  {
    var a, b, e := Person(1, 0), Person(4, 2), Person(5, 3);
    WaitingScattered();
    assert a.Desired() == Down && b.Desired() == Down && e.Desired() == Down;
  }

  /** The empty lift, turned down on the ground floor, finds no up-goer below
      and heads for the highest down-goer above it. */
  lemma HighestDownGoer()
    ensures EmptyLiftNext(ScatteredFloors, 0, Down) == 5
  {
    hide PeopleGoingUp, PeopleGoingDown;
    var a, b, e := Person(1, 0), Person(4, 2), Person(5, 3);
    ScatteredGoers();
    assert Calls(ScatteredFloors, Up, 0, Down) == [];
    assert Calls(ScatteredFloors, Down, 0, Up) == [a, b, e] by {
      assert Meets(a, Above(0)) && Meets(b, Above(0)) && Meets(e, Above(0));
      assert [a, b, e][1..] == [b, e] && [b, e][1..] == [e] && [e][1..] == [];
      assert Select([], Above(0)) == [];
    }
    assert Positions([a, b, e]) == [1, 4, 5];
  }

  /** On floor 5 the passenger boards; floor 4 is nearer than their floor 3. */
  lemma ScatteredSecond()
    ensures Step(Config(ScatteredFloors, [], 5, Down, 5, [0, 5]))
            == Config(Floor5Left, [Person(5, 3)], 4, Down, 5, [0, 5, 4])
  {
    hide Decide;
    var e := Person(5, 3);
    assert e.Desired() == Down;
    assert FloorAt(ScatteredFloors, 5) == [e];
    assert Board([], 1, Down, 5) == Boarding([], []);
    assert Board([e], 0, Down, 5) == Boarding([], [e]);
    assert SetFloor(ScatteredFloors, 5, []) == Floor5Left;
    KnownStep(Config(ScatteredFloors, [], 5, Down, 5, [0, 5]), [], Boarding([], [e]), [e]);
    ScatteredSecondDecision();
  }

  lemma ScatteredSecondDecision()
    ensures Decide(Floor5Left, [Person(5, 3)], 5, Down) == Move(4, Down)
  {
    hide RiderTarget, PickupAhead;
    WaitingScattered();
    assert Floor5Left[1] != [] && !NoneWaiting(Floor5Left);
    LastRiderTarget();
    Floor5Pickup();
    assert Some(3).Elements() + Some(4).Elements() == [3, 4];
    assert Nearest([3, 4], 5) == Some(4);
  }

  /** The passenger of floor 5, heading for floor 3, is candidate A going down. */
  lemma LastRiderTarget()
    ensures RiderTarget([Person(5, 3)], Down) == Some(3)
  {
    var e := Person(5, 3);
    assert e.Desired() == Down;
    assert Going([e], Down) == [e] by {
      assert Meets(e, Wants(Down)) && [e][1..] == [];
      assert Select([], Wants(Down)) == [];
    }
  }

  /** Below floor 5 the nearest down-goer waits on floor 4. */
  lemma Floor5Pickup()
    ensures PickupAhead(Floor5Left, 5, Down) == Some(4)
  {
    var a, b := Person(1, 0), Person(4, 2);
    WaitingScattered();
    assert a.Desired() == Down && b.Desired() == Down;
    assert PeopleGoingDown(Floor5Left) == [a, b];
    assert Calls(Floor5Left, Down, 5, Down) == [a, b];
    assert Positions([a, b]) == [1, 4];
  }

  /** On floor 4 the second passenger boards, and the lift heads for floor 2. */
  lemma ScatteredThird()
    ensures Step(Config(Floor5Left, [Person(5, 3)], 4, Down, 5, [0, 5, 4]))
            == Config(Floor1Waits, DownRiders, 2, Down, 5, [0, 5, 4, 2])
  {
    hide Decide;
    var b, e := Person(4, 2), Person(5, 3);
    assert b.Desired() == Down;
    assert Alight([e], 4) == [e] by {
      assert Meets(e, HeadsElsewhere(4)) && [e][1..] == [];
    }
    assert FloorAt(Floor5Left, 4) == [b];
    assert Board([], 2, Down, 5) == Boarding([], []);
    assert Board([b], 1, Down, 5) == Boarding([], [b]);
    assert SetFloor(Floor5Left, 4, []) == Floor1Waits;
    KnownStep(Config(Floor5Left, [e], 4, Down, 5, [0, 5, 4]), [e], Boarding([], [b]), DownRiders);
    DownPassesFloor3();
  }

  /** On floor 2 the second passenger gets off and the lift goes back up to
      floor 3, still pointing down. */
  lemma ScatteredFourth()
    ensures Step(Config(Floor1Waits, DownRiders, 2, Down, 5, [0, 5, 4, 2]))
            == Config(Floor1Waits, [Person(5, 3)], 3, Down, 5, [0, 5, 4, 2, 3])
  {
    hide Decide;
    var b, e := Person(4, 2), Person(5, 3);
    SecondRiderAlights();
    assert FloorAt(Floor1Waits, 2) == [] && Board([], 1, Down, 5) == Boarding([], []);
    assert SetFloor(Floor1Waits, 2, []) == Floor1Waits;
    KnownStep(Config(Floor1Waits, DownRiders, 2, Down, 5, [0, 5, 4, 2]), [e], Boarding([], []), [e]);
    TieGoesToRider();
  }

  lemma SecondRiderAlights()
    ensures Alight(DownRiders, 2) == [Person(5, 3)]
  {
    var b, e := Person(4, 2), Person(5, 3);
    assert DownRiders[1..] == [b] && [b][1..] == [];
    assert Meets(e, HeadsElsewhere(2)) && !Meets(b, HeadsElsewhere(2));
    assert Select([], HeadsElsewhere(2)) == [];
  }

  /** The tie: heading down on floor 2, candidate A (floor 3) and candidate B
      (floor 1) are equally near, A wins, and the lift moves up without turning. */
  lemma TieGoesToRider()
    ensures RiderTarget([Person(5, 3)], Down) == Some(3)
    ensures PickupAhead(Floor1Waits, 2, Down) == Some(1)
    ensures Decide(Floor1Waits, [Person(5, 3)], 2, Down) == Move(3, Down)
  {
    hide RiderTarget, PickupAhead;
    LastRiderTarget();
    Floor1Pickup(2);
    assert Floor1Waits[1] != [] && !NoneWaiting(Floor1Waits);
    assert Some(3).Elements() + Some(1).Elements() == [3, 1];
    assert Nearest([3, 1], 2) == Some(3);
  }

  /** On floor 3 the first passenger gets off; the lift fetches floor 1. */
  lemma ScatteredFifth()
    ensures Step(Config(Floor1Waits, [Person(5, 3)], 3, Down, 5, [0, 5, 4, 2, 3]))
            == Config(Floor1Waits, [], 1, Down, 5, [0, 5, 4, 2, 3, 1])
  {
    hide Decide;
    assert Alight([Person(5, 3)], 3) == [];
    assert FloorAt(Floor1Waits, 3) == [] && Board([], 0, Down, 5) == Boarding([], []);
    assert SetFloor(Floor1Waits, 3, []) == Floor1Waits;
    KnownStep(Config(Floor1Waits, [Person(5, 3)], 3, Down, 5, [0, 5, 4, 2, 3]), [], Boarding([], []), []);
    ScatteredFifthDecision();
  }

  lemma ScatteredFifthDecision()
    ensures Decide(Floor1Waits, [], 3, Down) == Move(1, Down)
  {
    hide PickupAhead;
    Floor1Pickup(3);
    assert Floor1Waits[1] != [] && !NoneWaiting(Floor1Waits);
    assert RiderTarget([], Down) == None;
    assert Some(1).Elements() == [1] && [] + [1] == [1];
    assert Nearest([1], 3) == Some(1);
  }

  /** On floor 1 the last passenger boards and the lift heads for the ground floor. */
  lemma ScatteredSixth()
    ensures Step(Config(Floor1Waits, [], 1, Down, 5, [0, 5, 4, 2, 3, 1]))
            == Config(Empty, [Person(1, 0)], 0, Down, 5, [0, 5, 4, 2, 3, 1, 0])
  {
    hide Decide;
    var a := Person(1, 0);
    assert a.Desired() == Down;
    assert FloorAt(Floor1Waits, 1) == [a];
    assert Board([], 1, Down, 5) == Boarding([], []);
    assert Board([a], 0, Down, 5) == Boarding([], [a]);
    assert SetFloor(Floor1Waits, 1, []) == Empty;
    KnownStep(Config(Floor1Waits, [], 1, Down, 5, [0, 5, 4, 2, 3, 1]), [], Boarding([], [a]), [a]);
    ScatteredSixthDecision();
  }

  lemma ScatteredSixthDecision()
    ensures Decide(Empty, [Person(1, 0)], 1, Down) == Move(0, Down)
  {
    var a := Person(1, 0);
    WaitingBefore();
    assert a.Desired() == Down;
    assert Going([a], Down) == [a] by {
      assert Meets(a, Wants(Down)) && [a][1..] == [];
      assert Select([], Wants(Down)) == [];
    }
    assert RiderTarget([a], Down) == Some(0);
    assert PickupAhead(Empty, 1, Down) == None;
    assert Nearest([0], 1) == Some(0);
  }

  /** On the ground floor the last passenger gets off; the lift stays and the
      loop of `simulate` ends. */
  lemma ScatteredSeventh()
    ensures Step(Config(Empty, [Person(1, 0)], 0, Down, 5, [0, 5, 4, 2, 3, 1, 0]))
            == Config(Empty, [], 0, Down, 5, [0, 5, 4, 2, 3, 1, 0])
  {
    assert Alight([Person(1, 0)], 0) == [];
    assert Board([], 0, Down, 5) == Boarding([], []);
    assert SetFloor(Empty, 0, []) == Empty;
    assert NoneWaiting(Empty);
  }

  /** Going down from floor 4 with riders for floors 3 and 2 and a down-goer
      waiting on floor 1, the lift heads for floor 2 and passes floor 3. */
  lemma DownPassesFloor3()
    ensures Decide(Floor1Waits, DownRiders, 4, Down) == Move(2, Down)
  {
    hide RiderTarget, PickupAhead;
    DownRiderTarget();
    Floor1Pickup(4);
    assert Floor1Waits[1] != [] && !NoneWaiting(Floor1Waits);
    assert Some(2).Elements() + Some(1).Elements() == [2, 1];
    assert Nearest([2, 1], 4) == Some(2);
  }

  /** Candidate A on the way down: the least destination among the riders. */
  lemma DownRiderTarget()
    ensures RiderTarget(DownRiders, Down) == Some(2)
  {
    assert DownRiders[0].Desired() == Down && DownRiders[1].Desired() == Down;
    assert Going(DownRiders, Down) == DownRiders;
    assert Destinations(DownRiders) == [3, 2];
  }

  /** Candidate B on the way down from any floor above 1: the down-goer waiting on floor 1. */
  lemma Floor1Pickup(f: int)
    requires f > 1
    ensures PickupAhead(Floor1Waits, f, Down) == Some(1)
  {
    var p := Person(1, 0);
    assert Waiting(Floor1Waits) == [p] by {
      FlattenEmpty(Floor1Waits[2..]);
      assert Flatten(Floor1Waits[1..]) == [p] + Flatten(Floor1Waits[2..]);
    }
    assert p.Desired() == Down;
    assert PeopleGoingDown(Floor1Waits) == [p];
    assert Calls(Floor1Waits, Down, f, Down) == [p] by {
      assert Meets(p, Toward(f, Down)) && [p][1..] == [];
      assert Select([], Toward(f, Down)) == [];
    }
  }
}
