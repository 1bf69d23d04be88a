/** The dispatch logic of the lift kata (LiftKata.java) as functions over a
    snapshot of the simulation. The imperative classes in module LiftKata are
    proved to compute exactly these functions; the properties of the kata are
    proved here, once, about the functions. */
module LiftModel {
  import opened Collections

  datatype Direction = Up | Down

  /** The direction after `Lift.turn`. */
  function Flip(d: Direction): Direction {
    if d == Up then Down else Up
  }

  /** A waiting or riding passenger: the floor they called from and the floor they want. */
  datatype Person = Person(position: int, destination: int) {
    function Desired(): Direction {
      if destination > position then Up else Down
    }

    predicate IsLowerThan(liftPosition: int) {
      position < liftPosition
    }

    predicate IsHigherThan(liftPosition: int) {
      position > liftPosition
    }
  }

  /** The record constructor of Person with its argument check. */
  function NewPerson(position: int, destination: int): (r: Result<Person>)
    ensures r.Ok? <==> position != destination
    ensures r.Ok? ==> r.value == Person(position, destination)
    ensures r.Ok? ==> (r.value.Desired() == Up <==> position < destination)
    ensures r.Ok? ==> (r.value.Desired() == Down <==> destination < position)
  {
    if position == destination then Err("Source and destination floor cannot be the same")
    else Ok(Person(position, destination))
  }

  // ---------------------------------------------------------------------------
  // The building: floor index -> FIFO queue of waiting people.

  /** The queue of floor `f`; a floor the building does not have reads as empty. */
  function FloorAt(floors: seq<seq<Person>>, f: int): seq<Person> {
    if 0 <= f < |floors| then floors[f] else []
  }

  /** The building after the queue of floor `f` became `q`; an absent floor stays absent. */
  function SetFloor(floors: seq<seq<Person>>, f: int, q: seq<Person>): (r: seq<seq<Person>>)
    ensures |r| == |floors|
  {
    if 0 <= f < |floors| then floors[f := q] else floors
  }

  /** `Building.isEmpty`: every floor queue is empty. */
  predicate NoneWaiting(floors: seq<seq<Person>>) {
    forall i :: 0 <= i < |floors| ==> floors[i] == []
  }

  /** Everybody waiting anywhere in the building. */
  function Waiting(floors: seq<seq<Person>>): seq<Person> {
    Flatten(floors)
  }

  lemma IsEmptyMeansNobodyWaits(floors: seq<seq<Person>>)
    ensures NoneWaiting(floors) <==> Waiting(floors) == []
  {
    FlattenEmpty(floors);
  }

  /** The tests the kata filters people by (the lambdas of its stream pipelines). */
  datatype Criterion =
    | Wants(d: Direction)
    | WantsOther(d: Direction)
    | HeadsElsewhere(floor: int)
    | HeadsTo(floor: int)
    | Above(floor: int)
    | Below(floor: int)

  predicate Meets(p: Person, c: Criterion) {
    match c
    case Wants(d) => p.Desired() == d
    case WantsOther(d) => p.Desired() != d
    case HeadsElsewhere(f) => p.destination != f
    case HeadsTo(f) => p.destination == f
    case Above(f) => p.IsHigherThan(f)
    case Below(f) => p.IsLowerThan(f)
  }

  /** The people of `ps` who meet `c`, in their original order (a stream `filter`). */
  function Select(ps: seq<Person>, c: Criterion): seq<Person> {
    if ps == [] then []
    else (if Meets(ps[0], c) then [ps[0]] else []) + Select(ps[1..], c)
  }

  /** The selected people are exactly those who meet `c`. */
  lemma {:induction false} SelectMembers(ps: seq<Person>, c: Criterion)
    ensures forall p :: p in Select(ps, c) <==> p in ps && Meets(p, c)
  {
    if ps != [] {
      assert ps == [ps[0]] + ps[1..];
      SelectMembers(ps[1..], c);
    }
  }

  /** Selecting distributes over concatenation: with the one-element case this
      says that selection keeps the order of the people it keeps. */
  lemma {:induction false} SelectConcat(a: seq<Person>, b: seq<Person>, c: Criterion)
    ensures Select(a + b, c) == Select(a, c) + Select(b, c)
  {
    if a == [] {
      assert a + b == b;
    } else {
      assert (a + b)[1..] == a[1..] + b;
      SelectConcat(a[1..], b, c);
    }
  }

  lemma {:induction false} SelectShorter(ps: seq<Person>, c: Criterion)
    ensures |Select(ps, c)| <= |ps|
  {
    if ps != [] {
      SelectShorter(ps[1..], c);
    }
  }

  /** Selection keeps every person who meets `c` as often as they occur, and nobody else. */
  lemma {:induction false} SelectCount(ps: seq<Person>, c: Criterion)
    ensures forall p :: multiset(Select(ps, c))[p] == if Meets(p, c) then multiset(ps)[p] else 0
  {
    if ps != [] {
      assert ps == [ps[0]] + ps[1..];
      SelectCount(ps[1..], c);
    }
  }

  function Going(ps: seq<Person>, d: Direction): seq<Person> {
    Select(ps, Wants(d))
  }

  function NotGoing(ps: seq<Person>, d: Direction): seq<Person> {
    Select(ps, WantsOther(d))
  }

  /** `peopleGoingUp`. */
  function PeopleGoingUp(floors: seq<seq<Person>>): seq<Person> {
    Going(Waiting(floors), Up)
  }

  /** `peopleGoingDown`. */
  function PeopleGoingDown(floors: seq<seq<Person>>): seq<Person> {
    Going(Waiting(floors), Down)
  }

  function Positions(ps: seq<Person>): (r: seq<int>)
    ensures forall f :: f in r <==> exists p :: p in ps && p.position == f
  {
    if ps == [] then [] else [ps[0].position] + Positions(ps[1..])
  }

  function Destinations(ps: seq<Person>): (r: seq<int>)
    ensures forall f :: f in r <==> exists p :: p in ps && p.destination == f
  {
    if ps == [] then [] else [ps[0].destination] + Destinations(ps[1..])
  }

  // ---------------------------------------------------------------------------
  // Alighting and boarding at the lift's floor.

  /** The riders who stay on board at `floor` (`removeIf` of those who arrived). */
  function Alight(riders: seq<Person>, floor: int): (r: seq<Person>)
    ensures forall p :: multiset(r)[p] == if p.destination == floor then 0 else multiset(riders)[p]
    ensures |r| <= |riders|
  {
    SelectCount(riders, HeadsElsewhere(floor));
    SelectShorter(riders, HeadsElsewhere(floor));
    Select(riders, HeadsElsewhere(floor))
  }

  /** `removeIf` keeps the riders who stay in their order: it acts on each part
      of the list separately. */
  lemma AlightConcat(a: seq<Person>, b: seq<Person>, floor: int)
    ensures Alight(a + b, floor) == Alight(a, floor) + Alight(b, floor)
  {
    SelectConcat(a, b, HeadsElsewhere(floor));
  }

  /** The riders who get off at `floor`. */
  function Arrived(riders: seq<Person>, floor: int): (r: seq<Person>)
    ensures forall p :: multiset(r)[p] == if p.destination == floor then multiset(riders)[p] else 0
  {
    SelectCount(riders, HeadsTo(floor));
    Select(riders, HeadsTo(floor))
  }

  /** The index of the first person in `q` who wants to travel in `d`
      (`queue.stream().filter(lift::accepts).findFirst()` while the lift has room). */
  function FirstGoing(q: seq<Person>, d: Direction): (r: Option<nat>)
    ensures r.None? <==> forall p :: p in q ==> p.Desired() != d
    ensures r.Some? ==> r.value < |q| && q[r.value].Desired() == d
    ensures r.Some? ==> forall k :: 0 <= k < r.value ==> q[k].Desired() != d
  {
    if q == [] then None
    else if q[0].Desired() == d then Some(0)
    else
      assert forall p :: p in q ==> p == q[0] || p in q[1..];
      match FirstGoing(q[1..], d)
      case None => None
      case Some(j) => Some(j + 1)
  }

  /** What boarding does to one floor: the queue left behind and the people who
      boarded, in the order they joined the back of the lift. */
  datatype Boarding = Boarding(queue: seq<Person>, boarded: seq<Person>)

  /** Boarding at a floor, for a lift with `onboard` riders heading `d`: walking
      the queue from its head, every person who wants `d` boards while the lift
      has room (`onboard != capacity`); everybody else keeps their place. */
  function Board(queue: seq<Person>, onboard: int, d: Direction, capacity: int): (b: Boarding)
    // the lift never takes more than it has room for
    ensures onboard <= capacity ==> onboard + |b.boarded| <= capacity
  {
    if onboard == capacity || queue == [] then Boarding(queue, [])
    else if queue[0].Desired() == d then
      var b := Board(queue[1..], onboard + 1, d, capacity);
      Boarding(b.queue, [queue[0]] + b.boarded)
    else
      var b := Board(queue[1..], onboard, d, capacity);
      Boarding([queue[0]] + b.queue, b.boarded)
  }

  /** A person at the head of the queue who does not board keeps the head. */
  lemma BoardSkips(x: Person, rest: seq<Person>, onboard: int, d: Direction, capacity: int)
    requires x.Desired() != d
    ensures Board([x] + rest, onboard, d, capacity).queue == [x] + Board(rest, onboard, d, capacity).queue
    ensures Board([x] + rest, onboard, d, capacity).boarded == Board(rest, onboard, d, capacity).boarded
  {
    assert ([x] + rest)[1..] == rest;
  }

  /** The scan above is the kata's loop: taking out the first accepted person
      (`queue.remove(person)`), adding them to the riders and boarding from the
      queue that is left. */
  lemma {:induction false} BoardRemoveFirst(q: seq<Person>, j: nat, onboard: int, d: Direction, capacity: int)
    requires onboard != capacity
    requires j < |q| && q[j].Desired() == d
    requires forall k :: 0 <= k < j ==> q[k].Desired() != d
    ensures Board(q, onboard, d, capacity).queue == Board(q[..j] + q[j + 1..], onboard + 1, d, capacity).queue
    ensures Board(q, onboard, d, capacity).boarded == [q[j]] + Board(q[..j] + q[j + 1..], onboard + 1, d, capacity).boarded
  {
    if j == 0 {
      assert q[..0] + q[1..] == q[1..];
    } else {
      var tail := q[1..];
      assert q[1..][..j - 1] + q[1..][j..] == q[1..j] + q[j + 1..];
      BoardRemoveFirst(tail, j - 1, onboard, d, capacity);
      assert q[..j] + q[j + 1..] == [q[0]] + (q[1..j] + q[j + 1..]);
      BoardSkips(q[0], q[1..j] + q[j + 1..], onboard + 1, d, capacity);
    }
  }

  /** When the lift is full, or nobody in the queue wants `d`, nobody boards. */
  lemma {:induction false} BoardIdle(queue: seq<Person>, onboard: int, d: Direction, capacity: int)
    requires onboard == capacity || forall p :: p in queue ==> p.Desired() != d
    ensures Board(queue, onboard, d, capacity) == Boarding(queue, [])
  {
    if onboard != capacity && queue != [] {
      assert queue[0] in queue;
      assert forall p :: p in queue[1..] ==> p in queue;
      BoardIdle(queue[1..], onboard, d, capacity);
      assert queue == [queue[0]] + queue[1..];
    }
  }

  /** `Queue.remove(x)`: the queue without its first element equal to `x`. */
  function RemoveFirst(q: seq<Person>, x: Person): (r: seq<Person>)
    ensures x in q ==> multiset(r) + multiset{x} == multiset(q)
    ensures x !in q ==> r == q
  {
    if q == [] then []
    else if q[0] == x then
      assert q == [q[0]] + q[1..];
      q[1..]
    else
      assert q == [q[0]] + q[1..];
      [q[0]] + RemoveFirst(q[1..], x)
  }

  /** Removing the first equal element removes the element at its first index. */
  lemma {:induction false} RemoveFirstAt(q: seq<Person>, j: nat)
    requires j < |q| && forall k :: 0 <= k < j ==> q[k] != q[j]
    ensures RemoveFirst(q, q[j]) == q[..j] + q[j + 1..]
  {
    if j > 0 {
      RemoveFirstAt(q[1..], j - 1);
      assert q[1..][..j - 1] + q[1..][j..] == q[1..j] + q[j + 1..];
      assert q[..j] + q[j + 1..] == [q[0]] + (q[1..j] + q[j + 1..]);
    }
  }

  /** Boarding moves people from the queue into the lift: nobody appears or disappears. */
  lemma {:induction false} BoardConserves(queue: seq<Person>, onboard: int, d: Direction, capacity: int)
    ensures multiset(Board(queue, onboard, d, capacity).queue) + multiset(Board(queue, onboard, d, capacity).boarded)
            == multiset(queue)
  {
    if onboard != capacity && queue != [] {
      assert queue == [queue[0]] + queue[1..];
      if queue[0].Desired() == d {
        BoardConserves(queue[1..], onboard + 1, d, capacity);
      } else {
        BoardConserves(queue[1..], onboard, d, capacity);
      }
    }
  }

  /** Those who board are the first people of the queue who want `d`, in queue order. */
  lemma {:induction false} BoardTakesFirstGoing(queue: seq<Person>, onboard: int, d: Direction, capacity: int)
    ensures Going(queue, d) == Board(queue, onboard, d, capacity).boarded + Going(Board(queue, onboard, d, capacity).queue, d)
  {
    if onboard != capacity && queue != [] {
      var x, rest := queue[0], queue[1..];
      if x.Desired() == d {
        BoardTakesFirstGoing(rest, onboard + 1, d, capacity);
        var after := Board(rest, onboard + 1, d, capacity);
        assert Going(queue, d) == [x] + Going(rest, d);
        assert [x] + (after.boarded + Going(after.queue, d)) == ([x] + after.boarded) + Going(after.queue, d);
      } else {
        BoardTakesFirstGoing(rest, onboard, d, capacity);
        var after := Board(rest, onboard, d, capacity);
        assert Going(queue, d) == Going(rest, d);
        assert ([x] + after.queue)[1..] == after.queue;
      }
    }
  }

  /** Boarding stops only when the lift is full or nobody left in the queue wants `d`. */
  lemma {:induction false} BoardStopsFullOrDone(queue: seq<Person>, onboard: int, d: Direction, capacity: int)
    ensures onboard + |Board(queue, onboard, d, capacity).boarded| != capacity ==>
              Going(Board(queue, onboard, d, capacity).queue, d) == []
  {
    if onboard != capacity && queue != [] {
      var x, rest := queue[0], queue[1..];
      if x.Desired() == d {
        BoardStopsFullOrDone(rest, onboard + 1, d, capacity);
      } else {
        BoardStopsFullOrDone(rest, onboard, d, capacity);
        assert ([x] + Board(rest, onboard, d, capacity).queue)[1..] == Board(rest, onboard, d, capacity).queue;
      }
    }
  }

  /** Everybody who does not want `d` stays queued, in order. */
  lemma {:induction false} BoardKeepsOthers(queue: seq<Person>, onboard: int, d: Direction, capacity: int)
    ensures NotGoing(Board(queue, onboard, d, capacity).queue, d) == NotGoing(queue, d)
  {
    if onboard != capacity && queue != [] {
      var x, rest := queue[0], queue[1..];
      if x.Desired() == d {
        BoardKeepsOthers(rest, onboard + 1, d, capacity);
      } else {
        BoardKeepsOthers(rest, onboard, d, capacity);
        assert ([x] + Board(rest, onboard, d, capacity).queue)[1..] == Board(rest, onboard, d, capacity).queue;
      }
    }
  }

  /** Boarding as one cut of the queue: up to some point `m` every goer boards
      and every other person stays, in queue order; from `m` on the queue is
      left untouched. This fixes the order of the whole queue left behind,
      goers and others mixed. */
  lemma {:induction false} BoardSplits(queue: seq<Person>, onboard: int, d: Direction, capacity: int) returns (m: nat)
    ensures m <= |queue|
    ensures Board(queue, onboard, d, capacity).boarded == Going(queue[..m], d)
    ensures Board(queue, onboard, d, capacity).queue == NotGoing(queue[..m], d) + queue[m..]
  {
    if onboard == capacity || queue == [] {
      m := 0;
      assert queue[..0] == [] && queue[0..] == queue;
    } else {
      hide Board;
      var x, rest := queue[0], queue[1..];
      assert queue == [x] + rest;
      BoardFront(x, rest, onboard, d, capacity);
      var room := if x.Desired() == d then onboard + 1 else onboard;
      var k := BoardSplits(rest, room, d, capacity);
      SplitFront(x, rest, k, Board(rest, room, d, capacity), d);
      m := k + 1;
    }
  }

  /** One step of the scan, for a queue with `x` at its head and room in the lift. */
  lemma BoardFront(x: Person, rest: seq<Person>, onboard: int, d: Direction, capacity: int)
    requires onboard != capacity
    ensures x.Desired() == d ==>
      (Board([x] + rest, onboard, d, capacity)
       == Boarding(Board(rest, onboard + 1, d, capacity).queue, [x] + Board(rest, onboard + 1, d, capacity).boarded))
    ensures x.Desired() != d ==>
      (Board([x] + rest, onboard, d, capacity)
       == Boarding([x] + Board(rest, onboard, d, capacity).queue, Board(rest, onboard, d, capacity).boarded))
  {
    assert ([x] + rest)[1..] == rest;
  }

  /** The cut of `rest` at `k` extends to a cut of `[x] + rest` at `k + 1`. */
  lemma SplitFront(x: Person, rest: seq<Person>, k: nat, b: Boarding, d: Direction)
    requires k <= |rest|
    requires b.boarded == Going(rest[..k], d) && b.queue == NotGoing(rest[..k], d) + rest[k..]
    ensures x.Desired() == d ==>
      ([x] + b.boarded == Going(([x] + rest)[..k + 1], d)
       && b.queue == NotGoing(([x] + rest)[..k + 1], d) + ([x] + rest)[k + 1..])
    ensures x.Desired() != d ==>
      (b.boarded == Going(([x] + rest)[..k + 1], d)
       && [x] + b.queue == NotGoing(([x] + rest)[..k + 1], d) + ([x] + rest)[k + 1..])
  {
    hide Select;
    assert ([x] + rest)[..k + 1] == [x] + rest[..k];
    assert ([x] + rest)[k + 1..] == rest[k..];
    SelectFront(x, rest[..k], Wants(d));
    SelectFront(x, rest[..k], WantsOther(d));
    assert [x] + (NotGoing(rest[..k], d) + rest[k..]) == ([x] + NotGoing(rest[..k], d)) + rest[k..];
  }

  /** Selection from a queue with `x` at its head. */
  lemma SelectFront(x: Person, rest: seq<Person>, c: Criterion)
    ensures Select([x] + rest, c) == (if Meets(x, c) then [x] else []) + Select(rest, c)
  {
    assert ([x] + rest)[1..] == rest;
  }

  /** Everybody who boards wants the lift's direction. */
  lemma BoardedWantDirection(queue: seq<Person>, onboard: int, d: Direction, capacity: int)
    ensures forall p :: p in Board(queue, onboard, d, capacity).boarded ==> p.Desired() == d
  {
    var b := Board(queue, onboard, d, capacity);
    BoardTakesFirstGoing(queue, onboard, d, capacity);
    SelectMembers(queue, Wants(d));
    assert forall p :: p in b.boarded ==> p in Going(queue, d);
  }

  // ---------------------------------------------------------------------------
  // Choosing the next floor.

  datatype Move = Move(floor: int, direction: Direction)

  /** Floors strictly beyond the lift on the side `side` (`isHigherThan` for Up,
      `isLowerThan` for Down). */
  predicate Ahead(liftPosition: int, side: Direction, f: int) {
    if side == Up then f > liftPosition else f < liftPosition
  }

  function Toward(liftPosition: int, side: Direction): Criterion {
    if side == Up then Above(liftPosition) else Below(liftPosition)
  }

  /** The waiting people who want `want` and wait beyond the lift on the side `side`. */
  function Calls(floors: seq<seq<Person>>, want: Direction, liftPosition: int, side: Direction): seq<Person> {
    Select(if want == Up then PeopleGoingUp(floors) else PeopleGoingDown(floors), Toward(liftPosition, side))
  }

  /** Somebody waiting at floor `f` wants `want`, and `f` is beyond the lift on the side `side`. */
  ghost predicate CallFrom(floors: seq<seq<Person>>, want: Direction, liftPosition: int, side: Direction, f: int) {
    && Ahead(liftPosition, side, f)
    && exists p :: p in Waiting(floors) && p.Desired() == want && p.position == f
  }

  lemma CallsFloors(floors: seq<seq<Person>>, want: Direction, liftPosition: int, side: Direction)
    ensures forall f :: f in Positions(Calls(floors, want, liftPosition, side)) <==>
              CallFrom(floors, want, liftPosition, side, f)
  {
    var calls := Calls(floors, want, liftPosition, side);
    SelectMembers(Waiting(floors), Wants(want));
    SelectMembers(Going(Waiting(floors), want), Toward(liftPosition, side));
    forall f | CallFrom(floors, want, liftPosition, side, f)
      ensures f in Positions(calls)
    {
      var p :| p in Waiting(floors) && p.Desired() == want && p.position == f;
      assert p in calls;
    }
    forall f | f in Positions(calls)
      ensures CallFrom(floors, want, liftPosition, side, f)
    {
      var p :| p in calls && p.position == f;
      assert p in Waiting(floors) && p.Desired() == want;
    }
  }

  /** Candidate A: the least destination among riders who want direction `d`
      (the least in both directions, as `getNextPosition` computes it). */
  function RiderTarget(riders: seq<Person>, d: Direction): Option<int> {
    MinOf(Destinations(Going(riders, d)))
  }

  /** Candidate B: the nearest floor strictly ahead where somebody waits who wants `d`. */
  function PickupAhead(floors: seq<seq<Person>>, liftPosition: int, d: Direction): Option<int> {
    if d == Up then MinOf(Positions(Calls(floors, Up, liftPosition, Up)))
    else MaxOf(Positions(Calls(floors, Down, liftPosition, Down)))
  }

  /** `emptyLiftNextPosition`, for a lift already turned to `d`. Going up, the
      highest down-goer above, else the lowest up-goer above; going down, the
      lowest up-goer below, else the highest down-goer ABOVE; else floor 0. */
  function EmptyLiftNext(floors: seq<seq<Person>>, liftPosition: int, d: Direction): int {
    if d == Up then
      MaxOf(Positions(Calls(floors, Down, liftPosition, Up))).GetOr(
        MinOf(Positions(Calls(floors, Up, liftPosition, Up))).GetOr(0))
    else
      MinOf(Positions(Calls(floors, Up, liftPosition, Down))).GetOr(
        MaxOf(Positions(Calls(floors, Down, liftPosition, Up))).GetOr(0))
  }

  /** The first of the floors nearest to the lift (`Stream.min` by distance keeps
      the earlier of two equally near elements). */
  function Nearest(xs: seq<int>, liftPosition: int): (r: Option<int>)
    ensures r.None? <==> xs == []
    ensures r.Some? ==> r.value in xs && forall x :: x in xs ==> Abs(r.value - liftPosition) <= Abs(x - liftPosition)
    ensures xs != [] && (forall x :: x in xs ==> Abs(xs[0] - liftPosition) <= Abs(x - liftPosition)) ==> r == Some(xs[0])
  {
    if xs == [] then None
    else
      assert xs == [xs[0]] + xs[1..];
      match Nearest(xs[1..], liftPosition)
      case None => Some(xs[0])
      case Some(m) => if Abs(xs[0] - liftPosition) <= Abs(m - liftPosition) then Some(xs[0]) else Some(m)
  }

  /** Of two optional floors, `Nearest` picks the one present, or the nearer,
      or the first on a tie. */
  lemma NearerOfTwo(a: Option<int>, b: Option<int>, liftPosition: int)
    ensures Nearest(a.Elements() + b.Elements(), liftPosition).None? <==> a.None? && b.None?
    ensures a.Some? && (b.None? || Abs(a.value - liftPosition) <= Abs(b.value - liftPosition)) ==>
              Nearest(a.Elements() + b.Elements(), liftPosition) == a
    ensures b.Some? && (a.None? || Abs(b.value - liftPosition) < Abs(a.value - liftPosition)) ==>
              Nearest(a.Elements() + b.Elements(), liftPosition) == b
  {
    var options := a.Elements() + b.Elements();
    assert forall x :: x in options <==> (a.Some? && x == a.value) || (b.Some? && x == b.value);
  }

  /** `getNextPosition`: the next floor and the direction the lift has afterwards
      (it differs from `d` exactly when the lift turned). */
  function Decide(floors: seq<seq<Person>>, riders: seq<Person>, liftPosition: int, d: Direction): Move {
    if NoneWaiting(floors) && riders == [] then Move(0, d)
    else
      var options := RiderTarget(riders, d).Elements() + PickupAhead(floors, liftPosition, d).Elements();
      match Nearest(options, liftPosition)
      case Some(f) => Move(f, d)
      case None => Move(EmptyLiftNext(floors, liftPosition, Flip(d)), Flip(d))
  }

  // The meaning of the candidates, stated without MinOf, MaxOf and Nearest.

  ghost predicate WantsTo(riders: seq<Person>, d: Direction) {
    exists p :: p in riders && p.Desired() == d
  }

  /** `f` is the least destination of a rider who wants `d`. */
  ghost predicate IsRiderTarget(riders: seq<Person>, d: Direction, f: int) {
    && (exists p :: p in riders && p.Desired() == d && p.destination == f)
    && forall p :: p in riders && p.Desired() == d ==> f <= p.destination
  }

  /** Somebody waits strictly ahead of the lift and wants to travel its way. */
  ghost predicate CallAhead(floors: seq<seq<Person>>, liftPosition: int, d: Direction) {
    exists f :: CallFrom(floors, d, liftPosition, d, f)
  }

  /** `f` is the nearest floor strictly ahead where somebody waits to travel the lift's way. */
  ghost predicate IsPickupAhead(floors: seq<seq<Person>>, liftPosition: int, d: Direction, f: int) {
    && CallFrom(floors, d, liftPosition, d, f)
    && forall g :: CallFrom(floors, d, liftPosition, d, g) ==> Abs(f - liftPosition) <= Abs(g - liftPosition)
  }

  /** `f` is the highest (or lowest) floor beyond the lift on the side `side`
      where somebody waits who wants `want`. */
  ghost predicate IsHighestCall(floors: seq<seq<Person>>, want: Direction, liftPosition: int, side: Direction, f: int) {
    CallFrom(floors, want, liftPosition, side, f) &&
    forall g :: CallFrom(floors, want, liftPosition, side, g) ==> g <= f
  }

  ghost predicate IsLowestCall(floors: seq<seq<Person>>, want: Direction, liftPosition: int, side: Direction, f: int) {
    CallFrom(floors, want, liftPosition, side, f) &&
    forall g :: CallFrom(floors, want, liftPosition, side, g) ==> f <= g
  }

  ghost predicate AnyCall(floors: seq<seq<Person>>, want: Direction, liftPosition: int, side: Direction) {
    exists f :: CallFrom(floors, want, liftPosition, side, f)
  }

  lemma RiderTargetSpec(riders: seq<Person>, d: Direction)
    ensures RiderTarget(riders, d).Some? <==> WantsTo(riders, d)
    ensures RiderTarget(riders, d).Some? ==> IsRiderTarget(riders, d, RiderTarget(riders, d).value)
    ensures forall f :: IsRiderTarget(riders, d, f) ==> RiderTarget(riders, d) == Some(f)
  {
    var going := Going(riders, d);
    var ds := Destinations(going);
    SelectMembers(riders, Wants(d));
    forall p | p in riders && p.Desired() == d
      ensures p.destination in ds
    {
      assert p in going;
    }
    if RiderTarget(riders, d).Some? {
      var p :| p in going && p.destination == RiderTarget(riders, d).value;
      assert p in riders && p.Desired() == d;
    }
    forall f | IsRiderTarget(riders, d, f)
      ensures RiderTarget(riders, d) == Some(f)
    {
      var p :| p in riders && p.Desired() == d && p.destination == f;
      assert f in ds;
      var q :| q in going && q.destination == RiderTarget(riders, d).value;
      assert q in riders && q.Desired() == d;
    }
  }

  lemma PickupAheadSpec(floors: seq<seq<Person>>, liftPosition: int, d: Direction)
    ensures PickupAhead(floors, liftPosition, d).Some? <==> CallAhead(floors, liftPosition, d)
    ensures PickupAhead(floors, liftPosition, d).Some? ==>
              IsPickupAhead(floors, liftPosition, d, PickupAhead(floors, liftPosition, d).value)
  {
    var fs := Positions(Calls(floors, d, liftPosition, d));
    CallsFloors(floors, d, liftPosition, d);
    if CallAhead(floors, liftPosition, d) {
      var f :| CallFrom(floors, d, liftPosition, d, f);
      assert f in fs;
    }
  }

  /** There is only one nearest floor ahead, and candidate B is it. */
  lemma PickupAheadUnique(floors: seq<seq<Person>>, liftPosition: int, d: Direction, f: int)
    requires IsPickupAhead(floors, liftPosition, d, f)
    ensures PickupAhead(floors, liftPosition, d) == Some(f)
  {
    PickupAheadSpec(floors, liftPosition, d);
    var r := PickupAhead(floors, liftPosition, d);
    SameSideSameDistance(f, r.value, liftPosition, d);
  }

  lemma SameSideSameDistance(a: int, b: int, liftPosition: int, d: Direction)
    requires Ahead(liftPosition, d, a) && Ahead(liftPosition, d, b)
    requires Abs(a - liftPosition) == Abs(b - liftPosition)
    ensures a == b
  {
  }

  /** Where an empty lift that has just turned to `d` heads. */
  lemma EmptyLiftNextSpec(floors: seq<seq<Person>>, liftPosition: int, d: Direction)
    ensures d == Up && AnyCall(floors, Down, liftPosition, Up) ==>
              IsHighestCall(floors, Down, liftPosition, Up, EmptyLiftNext(floors, liftPosition, d))
    ensures d == Up && !AnyCall(floors, Down, liftPosition, Up) && AnyCall(floors, Up, liftPosition, Up) ==>
              IsLowestCall(floors, Up, liftPosition, Up, EmptyLiftNext(floors, liftPosition, d))
    ensures d == Down && AnyCall(floors, Up, liftPosition, Down) ==>
              IsLowestCall(floors, Up, liftPosition, Down, EmptyLiftNext(floors, liftPosition, d))
    ensures d == Down && !AnyCall(floors, Up, liftPosition, Down) && AnyCall(floors, Down, liftPosition, Up) ==>
              IsHighestCall(floors, Down, liftPosition, Up, EmptyLiftNext(floors, liftPosition, d))
    ensures (if d == Up then !AnyCall(floors, Down, liftPosition, Up) && !AnyCall(floors, Up, liftPosition, Up)
             else !AnyCall(floors, Up, liftPosition, Down) && !AnyCall(floors, Down, liftPosition, Up)) ==>
              EmptyLiftNext(floors, liftPosition, d) == 0
  {
    if d == Up {
      ExtremeCalls(floors, Down, liftPosition, Up);
      ExtremeCalls(floors, Up, liftPosition, Up);
    } else {
      ExtremeCalls(floors, Up, liftPosition, Down);
      ExtremeCalls(floors, Down, liftPosition, Up);
    }
  }

  lemma ExtremeCalls(floors: seq<seq<Person>>, want: Direction, liftPosition: int, side: Direction)
    ensures var fs := Positions(Calls(floors, want, liftPosition, side));
            && (MinOf(fs).Some? <==> AnyCall(floors, want, liftPosition, side))
            && (MaxOf(fs).Some? <==> AnyCall(floors, want, liftPosition, side))
            && (MinOf(fs).Some? ==> IsLowestCall(floors, want, liftPosition, side, MinOf(fs).value))
            && (MaxOf(fs).Some? ==> IsHighestCall(floors, want, liftPosition, side, MaxOf(fs).value))
  {
    var fs := Positions(Calls(floors, want, liftPosition, side));
    CallsFloors(floors, want, liftPosition, side);
    if AnyCall(floors, want, liftPosition, side) {
      var f :| CallFrom(floors, want, liftPosition, side, f);
      assert f in fs;
    }
  }

  /** Whatever an empty lift falls back to lies strictly beyond it, or is the ground floor. */
  lemma EmptyLiftNextMoves(floors: seq<seq<Person>>, liftPosition: int, d: Direction)
    ensures EmptyLiftNext(floors, liftPosition, d) == 0 || EmptyLiftNext(floors, liftPosition, d) != liftPosition
  {
    EmptyLiftNextSpec(floors, liftPosition, d);
  }

  /** With the building and the lift empty, the lift heads for the ground floor. */
  lemma DecideIdle(floors: seq<seq<Person>>, riders: seq<Person>, liftPosition: int, d: Direction)
    requires Waiting(floors) == [] && riders == []
    ensures Decide(floors, riders, liftPosition, d) == Move(0, d)
  {
    IsEmptyMeansNobodyWaits(floors);
  }

  /** Otherwise the lift keeps its direction exactly when a rider wants it or
      somebody ahead waits to travel it, and then it heads for one of the two
      candidates; else it turns once and falls back to `emptyLiftNextPosition`. */
  lemma DecideSpec(floors: seq<seq<Person>>, riders: seq<Person>, liftPosition: int, d: Direction)
    requires !(NoneWaiting(floors) && riders == [])
    ensures Decide(floors, riders, liftPosition, d).direction == d <==>
              WantsTo(riders, d) || CallAhead(floors, liftPosition, d)
    ensures Decide(floors, riders, liftPosition, d).direction == d ==>
              IsRiderTarget(riders, d, Decide(floors, riders, liftPosition, d).floor) ||
              IsPickupAhead(floors, liftPosition, d, Decide(floors, riders, liftPosition, d).floor)
    ensures Decide(floors, riders, liftPosition, d).direction != d ==>
              Decide(floors, riders, liftPosition, d) == Move(EmptyLiftNext(floors, liftPosition, Flip(d)), Flip(d))
  {
    var a := RiderTarget(riders, d);
    var b := PickupAhead(floors, liftPosition, d);
    RiderTargetSpec(riders, d);
    PickupAheadSpec(floors, liftPosition, d);
    NearerOfTwo(a, b, liftPosition);
  }

  /** The lift heads for the nearer of the two candidates, the rider target
      winning a tie. */
  lemma DecideNearest(floors: seq<seq<Person>>, riders: seq<Person>, liftPosition: int, d: Direction)
    requires !(NoneWaiting(floors) && riders == [])
    ensures forall f :: IsRiderTarget(riders, d, f) || IsPickupAhead(floors, liftPosition, d, f) ==>
              Abs(Decide(floors, riders, liftPosition, d).floor - liftPosition) <= Abs(f - liftPosition)
    ensures forall f :: IsRiderTarget(riders, d, f) &&
                        (forall g :: IsPickupAhead(floors, liftPosition, d, g) ==> Abs(f - liftPosition) <= Abs(g - liftPosition)) ==>
              Decide(floors, riders, liftPosition, d).floor == f
  {
    var a := RiderTarget(riders, d);
    var b := PickupAhead(floors, liftPosition, d);
    RiderTargetSpec(riders, d);
    PickupAheadSpec(floors, liftPosition, d);
    forall f | IsPickupAhead(floors, liftPosition, d, f)
      ensures b == Some(f)
    {
      PickupAheadUnique(floors, liftPosition, d, f);
    }
    NearerOfTwo(a, b, liftPosition);
  }
}
