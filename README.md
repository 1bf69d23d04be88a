# Lift kata and Roman numerals, in Dafny

This project models two parts of the `java-and-scala` playground repository.

**The lift kata** (`JavaPlayground/LiftKata/LiftKata.java`) simulates one lift in a building.
- Each floor holds a FIFO queue of waiting people, and each person has a destination floor.
- On every `tick` of the simulation, in order:
  - riders whose destination is the current floor get off;
  - people on this floor who want the lift's direction board, while the lift has room;
  - `getNextPosition` picks the next floor, and the lift may turn;
  - the lift moves there and records the floor as a stop.
- `simulate` ticks until nobody waits, nobody rides and the lift is back on the ground floor.
- `theLift` builds the building from per-floor lists of destinations and returns the recorded stops.

**The Roman-numeral converters** come in two copies.
- `JavaPlayground/RomanNumerals/JavaRomans.java` has `toNumeral`, which encodes greedily against a 13-entry value/symbol table, and `toInt`, which decodes greedily by matching prefixes against the same table.
- `JavaPlayground/JavaRomans.java` has a second copy of `toNumeral`.

Modules:
- `Collections` (collections.dfy): `Option`, `Result`, flattening, and minimum and maximum. These play the roles of Java's `Optional`/`OptionalInt`, `flatMap`, `min` and `max`.
- `LiftModel` (lift_model.dfy): the kata's decisions as functions of a snapshot.
  - `Person`, `NewPerson` (the record's argument check), `Alight` (`removeIf`) and `Board` (the boarding loop).
  - `PeopleGoingUp` and `PeopleGoingDown`, and `EmptyLiftNext` (`emptyLiftNextPosition`).
  - `RiderTarget` and `PickupAhead` (the two candidates of `getNextPosition`), `Nearest` (`Stream.min` by distance) and `Decide` (`getNextPosition`).
  - The lemmas that state what these mean.
- `LiftSteps` (lift_steps.dfy): one tick as `Step`, the simulation loop as `Run` (bounded by fuel), the initial state `theLift` sets up, and the invariant the simulation keeps.
- `LiftKata` (lift_kata.dfy): the classes `Lift`, `Building` and `State`, whose fields the methods update in place, and the methods `GetNextPosition`, `Tick`, `Simulate` and `TheLift`. Each method is proved to compute the corresponding function of `LiftModel`/`LiftSteps`.
- `LiftExamples` (lift_examples.dfy): concrete runs.
  - An input on which `simulate` never stops.
  - Three inputs on which it stops, with the stops proved tick by tick.
  - The decision that makes the lift pass a rider's floor on the way down, and a tie between the two candidates.
- `RomanNumerals` (roman_numerals.dfy): the table, `ToNumeral` and `ToInt` as methods with the source's loops. They are proved equal to `Numeral` (the entries `Greedy` writes) and `Decode` (the entries `Parse` reads), and the properties are proved about those functions.
- `PlaygroundRomans` (playground_romans.dfy): the second copy of `toNumeral`, with its own table, proved to return what `RomanNumerals.Numeral` returns.

Several functions and predicates carry no contract of their own: `Step`, `Run`, `Start`, `Initial`, `Running`, `Decide`, `RiderTarget`, `PickupAhead`, `EmptyLiftNext`, `PeopleGoingUp`, `PeopleGoingDown`, `Select`, `FloorAt`, `Person.Desired`, `Person.IsLowerThan`, `Person.IsHigherThan`, `Greedy`, `Numeral`, `Parse`, `Decode`, `StartsAt`, and the predicates `HasRoom`, `HasPeople`, `Accepts` and `IsEmpty` of the classes. Their rows below name the lemmas and methods that state what they mean.

Three behaviours of the code, which the model keeps:
- **`simulate` need not terminate.** `NeverFinishesFromInput` shows the input `[[], [], [0, 0]]` with capacity 1: the lift shuttles between floors 2 and 0 for ever. The loop is modelled with a fuel bound.
- **Candidate A takes the least rider destination in both directions** (`LiftKata.java:176-179`), not the nearest one ahead. Going down, the lift can therefore pass a floor where a rider wants to get off (`DownPassesFloor3`). `ScatteredFinishes` proves that `theLift([[], [0], [], [], [2], [3], []], 5)` records `[0, 5, 4, 2, 3, 1, 0]`: floor 3 is passed on the way down and visited after floor 2.
- **Candidates A and B can be equally near.** `Stream.min` keeps the first of two equal elements, so A wins (`NearerOfTwo`, `DecideNearest`). In the run above, on floor 2 heading down, A is floor 3 and B is floor 1 (`TieGoesToRider`), so the lift moves up to floor 3 while still pointing down.

## Model

| member | source | states |
|---|---|---|
| LiftModel.Person.Desired | src/main/java/JavaPlayground/LiftKata/LiftKata.java:15-17 | no contract; `NewPerson` states that it is Up exactly when the destination is above |
| LiftModel.Person.IsLowerThan | src/main/java/JavaPlayground/LiftKata/LiftKata.java:19-21 | no contract; `CallsFloors` and `PickupAheadSpec` state the floors below the lift it selects |
| LiftModel.Person.IsHigherThan | src/main/java/JavaPlayground/LiftKata/LiftKata.java:23-25 | no contract; `CallsFloors`, `PickupAheadSpec` and `EmptyLiftNextSpec` state the floors above the lift it selects |
| LiftModel.NewPerson | src/main/java/JavaPlayground/LiftKata/LiftKata.java:8-17 | a person is built exactly when source and destination differ, otherwise construction fails (the body gives the source's message); the desired direction is Up exactly when the destination is above |
| LiftModel.IsEmptyMeansNobodyWaits | src/main/java/JavaPlayground/LiftKata/LiftKata.java:76-79 | `isEmpty` (every floor queue empty) holds exactly when nobody waits anywhere in the building |
| Collections.Flatten | src/main/java/JavaPlayground/LiftKata/LiftKata.java:134-135 | a person is among everybody waiting exactly when they are in some floor's queue |
| Collections.FlattenEmpty | src/main/java/JavaPlayground/LiftKata/LiftKata.java:78 | the flattened queues are empty exactly when every queue is |
| Collections.MinOf | src/main/java/JavaPlayground/LiftKata/LiftKata.java:156 | `min()` is absent exactly for no elements, else an element no greater than any other |
| Collections.MaxOf | src/main/java/JavaPlayground/LiftKata/LiftKata.java:152 | `max()` is absent exactly for no elements, else an element no smaller than any other |
| LiftModel.Select | src/main/java/JavaPlayground/LiftKata/LiftKata.java:133-145 | no contract; `SelectMembers`, `SelectConcat` and `SelectCount` state what a stream `filter` keeps, in order and with multiplicity |
| LiftModel.FloorAt | src/main/java/JavaPlayground/LiftKata/LiftKata.java:113 | no contract; `getOrDefault` of a floor, empty for a floor the building does not have; `StepConserves` and `BoardLeavesFloor` state what boarding takes from it |
| LiftModel.SetFloor | src/main/java/JavaPlayground/LiftKata/LiftKata.java:113-121 | the building keeps its number of floors when the queue taken from it is shortened in place; `BoardLeavesFloor` and `StepKeepsPlaced` state the rest |
| LiftModel.SelectMembers | src/main/java/JavaPlayground/LiftKata/LiftKata.java:133-145 | a stream `filter` keeps exactly the people who pass the test |
| LiftModel.SelectConcat | src/main/java/JavaPlayground/LiftKata/LiftKata.java:133-145 | filtering distributes over concatenation, so it keeps the original order |
| LiftModel.SelectCount | src/main/java/JavaPlayground/LiftKata/LiftKata.java:110 | filtering keeps each passing person as often as they occur, and nobody else |
| LiftModel.Alight | src/main/java/JavaPlayground/LiftKata/LiftKata.java:110 | `removeIf` drops every rider whose destination is the current floor and keeps every other rider, counted with multiplicity |
| LiftModel.AlightConcat | src/main/java/JavaPlayground/LiftKata/LiftKata.java:110 | `removeIf` acts on each part of the riders' list separately, so the riders who stay keep their order |
| LiftModel.Arrived | src/main/java/JavaPlayground/LiftKata/LiftKata.java:110 | the riders who get off are exactly those whose destination is the current floor |
| LiftModel.FirstGoing | src/main/java/JavaPlayground/LiftKata/LiftKata.java:115-116 | `filter(lift::accepts).findFirst()` finds nobody exactly when nobody wants the lift's direction; otherwise it finds the first person who does |
| LiftModel.RemoveFirst | src/main/java/JavaPlayground/LiftKata/LiftKata.java:118 | `queue.remove(person)` takes out one occurrence of the person, and leaves the queue unchanged if the person is absent |
| LiftModel.RemoveFirstAt | src/main/java/JavaPlayground/LiftKata/LiftKata.java:116-118 | removing the first equal element removes the person at the index `findFirst` found |
| LiftModel.Board | src/main/java/JavaPlayground/LiftKata/LiftKata.java:115-121 | boarding never takes more people than the lift has room for |
| LiftModel.BoardSkips | src/main/java/JavaPlayground/LiftKata/LiftKata.java:115-121 | a person at the head who does not want the lift's direction keeps their place at the head, and does not change who boards |
| LiftModel.BoardRemoveFirst | src/main/java/JavaPlayground/LiftKata/LiftKata.java:115-120 | one turn of the boarding loop (remove the first accepted person, add them to the lift) leaves what boarding from the rest would do |
| LiftModel.BoardIdle | src/main/java/JavaPlayground/LiftKata/LiftKata.java:115 | when the lift is full or nobody queued wants its direction, the loop boards nobody |
| LiftModel.BoardConserves | src/main/java/JavaPlayground/LiftKata/LiftKata.java:118-119 | the queue left plus those who boarded is the queue before, as a multiset |
| LiftModel.BoardTakesFirstGoing | src/main/java/JavaPlayground/LiftKata/LiftKata.java:115-121 | those who board are the first people in queue order who want the lift's direction |
| LiftModel.BoardStopsFullOrDone | src/main/java/JavaPlayground/LiftKata/LiftKata.java:115 | boarding stops only when the lift is full or nobody left in the queue wants its direction |
| LiftModel.BoardKeepsOthers | src/main/java/JavaPlayground/LiftKata/LiftKata.java:115-121 | everybody who does not want the lift's direction stays queued, in order |
| LiftModel.BoardSplits | src/main/java/JavaPlayground/LiftKata/LiftKata.java:115-121 | boarding cuts the queue at one point: before it every goer boards and every other person stays, in queue order; after it the queue is untouched. This fixes the order of the whole queue left, goers and others mixed |
| LiftModel.BoardedWantDirection | src/main/java/JavaPlayground/LiftKata/LiftKata.java:62-64 | `accepts`: everybody who boards wants the lift's direction |
| LiftModel.PeopleGoingUp | src/main/java/JavaPlayground/LiftKata/LiftKata.java:140-145 | no contract; `CallsFloors` and `ExtremeCalls` state what the filtered up-goers give |
| LiftModel.PeopleGoingDown | src/main/java/JavaPlayground/LiftKata/LiftKata.java:133-138 | no contract; `CallsFloors` and `ExtremeCalls` state what the filtered down-goers give |
| LiftModel.RiderTarget | src/main/java/JavaPlayground/LiftKata/LiftKata.java:176-179 | no contract; `RiderTargetSpec` states candidate A |
| LiftModel.PickupAhead | src/main/java/JavaPlayground/LiftKata/LiftKata.java:181-189 | no contract; `PickupAheadSpec` and `PickupAheadUnique` state candidate B |
| LiftModel.EmptyLiftNext | src/main/java/JavaPlayground/LiftKata/LiftKata.java:147-169 | no contract; `EmptyLiftNextSpec` and `EmptyLiftNextMoves` state it |
| LiftModel.Decide | src/main/java/JavaPlayground/LiftKata/LiftKata.java:171-200 | no contract; `DecideIdle`, `DecideSpec` and `DecideNearest` state it, and `LiftKata.GetNextPosition` is proved to compute it |
| LiftModel.CallsFloors | src/main/java/JavaPlayground/LiftKata/LiftKata.java:149-167 | the filtered positions are exactly the floors beyond the lift, on the given side, where somebody waits who wants the given direction |
| LiftModel.RiderTargetSpec | src/main/java/JavaPlayground/LiftKata/LiftKata.java:176-179 | candidate A exists exactly when a rider wants the lift's direction, and it is the least destination of those riders |
| LiftModel.PickupAheadSpec | src/main/java/JavaPlayground/LiftKata/LiftKata.java:181-189 | candidate B exists exactly when somebody strictly ahead waits to travel the lift's way, and it is the nearest such floor |
| LiftModel.PickupAheadUnique | src/main/java/JavaPlayground/LiftKata/LiftKata.java:181-189 | the nearest such floor is unique, and candidate B is it |
| LiftModel.Nearest | src/main/java/JavaPlayground/LiftKata/LiftKata.java:195 | `Stream.min` by distance is absent only for no options; otherwise it is an option no farther than any other, and the first option when that one is nearest |
| LiftModel.NearerOfTwo | src/main/java/JavaPlayground/LiftKata/LiftKata.java:191-195 | of candidates A and B, the present one is chosen, or the nearer one, or A on a tie |
| LiftModel.ExtremeCalls | src/main/java/JavaPlayground/LiftKata/LiftKata.java:149-167 | the `min`/`max` of the filtered positions exist exactly when there is such a call, and are the lowest/highest such floor |
| LiftModel.EmptyLiftNextSpec | src/main/java/JavaPlayground/LiftKata/LiftKata.java:147-169 | `emptyLiftNextPosition`, case by case. Going up: the highest down-goer above, else the lowest up-goer above. Going down: the lowest up-goer below, else the highest down-goer above. Else floor 0 |
| LiftModel.EmptyLiftNextMoves | src/main/java/JavaPlayground/LiftKata/LiftKata.java:147-169 | the fallback floor is the ground floor or differs from the lift's floor |
| LiftModel.DecideIdle | src/main/java/JavaPlayground/LiftKata/LiftKata.java:172-174 | with nobody waiting and nobody riding, the next floor is 0 and the lift does not turn |
| LiftModel.DecideSpec | src/main/java/JavaPlayground/LiftKata/LiftKata.java:171-200 | otherwise the lift keeps its direction exactly when a rider wants it or somebody ahead waits to travel it, and then heads for candidate A or B; else it turns and heads where `emptyLiftNextPosition` says for the new direction |
| LiftModel.DecideNearest | src/main/java/JavaPlayground/LiftKata/LiftKata.java:191-195 | the chosen floor is no farther than either candidate, and candidate A wins when it is at least as near as B |
| LiftSteps.FloorQueue | src/main/java/JavaPlayground/LiftKata/LiftKata.java:219-221 | a floor's queue is built exactly when no destination equals the floor, and holds `Person(i, dest)` for each destination in order |
| LiftSteps.Floors | src/main/java/JavaPlayground/LiftKata/LiftKata.java:216-223 | the building has one floor per input row |
| LiftSteps.Running | src/main/java/JavaPlayground/LiftKata/LiftKata.java:206 | no contract; `LiftKata.Simulate`'s `finished` is exactly its negation, and `FinishedAtGround` states what a stopped run looks like |
| LiftSteps.Start | src/main/java/JavaPlayground/LiftKata/LiftKata.java:203 | no contract; `LiftKata.Simulate` is proved to record the start floor as it does, and `InitialInv` states the stops `[0]` it gives |
| LiftSteps.Initial | src/main/java/JavaPlayground/LiftKata/LiftKata.java:216-227 | no contract; `LiftKata.TheLift` is proved to build it, and `InitialInv` states that it meets the simulation invariant |
| LiftSteps.Step | src/main/java/JavaPlayground/LiftKata/LiftKata.java:104-131 | no contract; `LiftKata.Tick` is proved to compute it, and `StepPreservesInv`, `StepConserves` and the other `Step…` lemmas state what a tick keeps |
| LiftSteps.Run | src/main/java/JavaPlayground/LiftKata/LiftKata.java:202-209 | no contract; `LiftKata.Simulate` is proved to compute it, and `RunPreservesInv`, `RunExtendsStops`, `RunNeverAddsPeople` and `FinishedAtGround` state it |
| LiftSteps.StepKeepsCapacity | src/main/java/JavaPlayground/LiftKata/LiftKata.java:115 | after a tick the lift still carries no more than its capacity |
| LiftSteps.StepConserves | src/main/java/JavaPlayground/LiftKata/LiftKata.java:104-131 | a tick neither creates nor loses people. Waiting plus riding plus those who got off after the tick equals waiting plus riding before it, as multisets |
| LiftSteps.BoardLeavesFloor | src/main/java/JavaPlayground/LiftKata/LiftKata.java:113-121 | boarding moves people from the building's queues into the lift, as multisets |
| LiftSteps.StepKeepsPlaced | src/main/java/JavaPlayground/LiftKata/LiftKata.java:113-121 | people still waiting after a tick wait at their own floor and want another one |
| LiftSteps.StepKeepsRidersDirection | src/main/java/JavaPlayground/LiftKata/LiftKata.java:115-121 | every rider wants the lift's direction, before and after a tick, turns included |
| LiftSteps.StepKeepsStops | src/main/java/JavaPlayground/LiftKata/LiftKata.java:123-129 | a stop is appended exactly when the lift moves, so the last stop is the lift's floor and no floor is recorded twice in a row |
| LiftSteps.StepKeepsStopsPrefix | src/main/java/JavaPlayground/LiftKata/LiftKata.java:127-129 | a tick only appends to the stops |
| LiftSteps.StepPreservesInv | src/main/java/JavaPlayground/LiftKata/LiftKata.java:104-131 | a tick preserves the simulation invariant: capacity, riders' direction, placement, stops |
| LiftSteps.InitialInv | src/main/java/JavaPlayground/LiftKata/LiftKata.java:215-227 | the state `theLift` sets up, once `simulate` has recorded floor 0, satisfies the invariant, and its stops are `[0]` |
| LiftSteps.RunPreservesInv | src/main/java/JavaPlayground/LiftKata/LiftKata.java:206-209 | the invariant holds after any number of ticks |
| LiftSteps.RunExtendsStops | src/main/java/JavaPlayground/LiftKata/LiftKata.java:202-209 | the simulation only ever appends stops |
| LiftSteps.RunNeverAddsPeople | src/main/java/JavaPlayground/LiftKata/LiftKata.java:206-209 | everyone waiting or riding after any number of ticks was waiting or riding at the start (multiset inclusion), so their number never grows |
| LiftSteps.FinishedAtGround | src/main/java/JavaPlayground/LiftKata/LiftKata.java:206 | when the loop condition fails, nobody waits, nobody rides, and the lift and the last stop are floor 0 |
| LiftKata.Lift.constructor | src/main/java/JavaPlayground/LiftKata/LiftKata.java:39-44 | a new lift at the given floor and direction, empty, with the given capacity |
| LiftKata.Lift.HasRoom | src/main/java/JavaPlayground/LiftKata/LiftKata.java:46-52 | no contract; the loop guard of `LiftKata.BoardFrom`, which is proved to board what `Board` boards |
| LiftKata.Lift.HasPeople | src/main/java/JavaPlayground/LiftKata/LiftKata.java:54-56 | no contract; part of the loop guard of `LiftKata.Simulate`, whose `finished` ensures states the guard |
| LiftKata.Lift.Accepts | src/main/java/JavaPlayground/LiftKata/LiftKata.java:62-64 | no contract; `BoardedWantDirection` states that everybody who boards wants the lift's direction |
| LiftKata.Lift.Turn | src/main/java/JavaPlayground/LiftKata/LiftKata.java:66-68 | `turn` reverses the direction and changes nothing else |
| LiftKata.Building.constructor | src/main/java/JavaPlayground/LiftKata/LiftKata.java:76 | the building holds the given floor queues |
| LiftKata.Building.IsEmpty | src/main/java/JavaPlayground/LiftKata/LiftKata.java:77-79 | no contract; `IsEmptyMeansNobodyWaits` states that it holds exactly when nobody waits |
| LiftKata.State.constructor | src/main/java/JavaPlayground/LiftKata/LiftKata.java:87-91 | a state with the given building and lift and no stops |
| LiftKata.GetNextPosition | src/main/java/JavaPlayground/LiftKata/LiftKata.java:171-200 | the returned floor and the lift's direction afterwards are what `Decide` gives; position and riders are unchanged |
| LiftKata.BoardFrom | src/main/java/JavaPlayground/LiftKata/LiftKata.java:115-121 | the boarding loop leaves the queue `Board` leaves, and appends to the lift's riders those `Board` boards |
| LiftKata.Tick | src/main/java/JavaPlayground/LiftKata/LiftKata.java:104-131 | `tick` turns the state into `Step` of it |
| LiftKata.Simulate | src/main/java/JavaPlayground/LiftKata/LiftKata.java:202-211 | `simulate` (at most `fuel` ticks) leaves the state `Run` computes from the state with the start floor recorded; `finished` tells whether the loop condition failed |
| LiftKata.TheLift | src/main/java/JavaPlayground/LiftKata/LiftKata.java:215-231 | rejects the input exactly when a destination equals its floor. Otherwise it returns the simulated stops. A finished run's stops start and end at 0 and never repeat a floor twice in a row |
| LiftExamples.TopToGround | src/main/java/JavaPlayground/LiftKata/LiftKata.java:147-169 | on floor 2 heading up with a down-goer waiting there, the empty lift turns and heads for the ground floor |
| LiftExamples.GroundToTop | src/main/java/JavaPlayground/LiftKata/LiftKata.java:163-167 | on the ground floor heading down, the empty lift turns and falls back to the highest down-goer above: floor 2 |
| LiftExamples.NeverFinishes | src/main/java/JavaPlayground/LiftKata/LiftKata.java:206-209 | from either state of that cycle the loop condition holds after any number of ticks |
| LiftExamples.ReachesCycle | src/main/java/JavaPlayground/LiftKata/LiftKata.java:215-229 | `theLift([[], [], [0, 0]], 1)` reaches the cycle after three ticks |
| LiftExamples.NeverFinishesFromInput | src/main/java/JavaPlayground/LiftKata/LiftKata.java:202-211 | `simulate` never returns on that input |
| LiftExamples.UpAndBackFinishes | src/main/java/JavaPlayground/LiftKata/LiftKata.java:215-231 | `theLift([[2], [], []], 5)` finishes with stops `[0, 2, 0]` |
| LiftExamples.ThreeUpFinishes | src/main/java/JavaPlayground/LiftKata/LiftKata.java:215-231 | `theLift([[], [], [5, 5, 5], [], [], [], []], 5)` finishes with stops `[0, 2, 5, 0]` |
| LiftExamples.ScatteredFinishes | src/main/java/JavaPlayground/LiftKata/LiftKata.java:104-231 | `theLift([[], [0], [], [], [2], [3], []], 5)` finishes after seven ticks with stops `[0, 5, 4, 2, 3, 1, 0]` |
| LiftExamples.TieGoesToRider | src/main/java/JavaPlayground/LiftKata/LiftKata.java:176-195 | on floor 2 heading down with a rider for floor 3 and a down-goer waiting on floor 1, candidates A (3) and B (1) are equally near; A wins, and the lift heads up to 3 without turning |
| LiftExamples.DownPassesFloor3 | src/main/java/JavaPlayground/LiftKata/LiftKata.java:176-195 | going down from floor 4 with riders for floors 3 and 2, the lift heads for floor 2 |
| LiftExamples.DownRiderTarget | src/main/java/JavaPlayground/LiftKata/LiftKata.java:176-179 | going down with riders for floors 3 and 2, candidate A is floor 2, the least destination |
| LiftExamples.Floor1Pickup | src/main/java/JavaPlayground/LiftKata/LiftKata.java:181-187 | going down from any floor above 1 with only a down-goer waiting on floor 1, candidate B is floor 1 |
| RomanNumerals.TableShape | src/main/java/JavaPlayground/RomanNumerals/JavaRomans.java:8-22 | the table's values strictly decrease down to 1, and each symbol has one or two letters |
| RomanNumerals.ToNumeral | src/main/java/JavaPlayground/RomanNumerals/JavaRomans.java:24-36 | `toNumeral` returns `Numeral(number)`. The loop invariants say: `remaining` is never negative (for `number >= 0`), and is below the value of every entry already passed |
| RomanNumerals.StartsAtRest | src/main/java/JavaPlayground/RomanNumerals/JavaRomans.java:43 | `startsWith(symbol, index)` holds exactly when the symbol is a prefix of the rest from `index` |
| RomanNumerals.StartsAt | src/main/java/JavaPlayground/RomanNumerals/JavaRomans.java:43 | no contract; `StartsAtRest` states that it is a prefix test on the rest of the string |
| RomanNumerals.ToInt | src/main/java/JavaPlayground/RomanNumerals/JavaRomans.java:38-50 | `toInt` returns `Decode(numeral)`. The loop invariant keeps the index within the string |
| RomanNumerals.Greedy | src/main/java/JavaPlayground/RomanNumerals/JavaRomans.java:28-33 | no contract; `GreedySum`, `GreedyOrdered`, `GreedyConsumes` and `GreedyRepeats` state it |
| RomanNumerals.Numeral | src/main/java/JavaPlayground/RomanNumerals/JavaRomans.java:24-35 | no contract; `ToNumeral` is proved to compute it, and `NumeralEmpty`, `NumeralSum`, `NumeralOrdered`, `NumeralRepeats` and `RoundTrip` state it |
| RomanNumerals.GreedyNone | src/main/java/JavaPlayground/RomanNumerals/JavaRomans.java:28-33 | once less than 1 remains, nothing more is written |
| RomanNumerals.GreedyHead | src/main/java/JavaPlayground/RomanNumerals/JavaRomans.java:28-33 | with at least 1 left, the first symbol written is that of the first entry whose value fits |
| RomanNumerals.NumeralEmpty | src/main/java/JavaPlayground/RomanNumerals/JavaRomans.java:24-35 | `toNumeral(n)` is empty exactly when `n <= 0` |
| RomanNumerals.GreedySum | src/main/java/JavaPlayground/RomanNumerals/JavaRomans.java:28-33 | the values written from any entry on add up to what remained |
| RomanNumerals.NumeralSum | src/main/java/JavaPlayground/RomanNumerals/JavaRomans.java:28-33 | the values of the symbols of `toNumeral(n)` add up to `n` for `n >= 0`, and to 0 for a negative `n` |
| RomanNumerals.GreedyFrom | src/main/java/JavaPlayground/RomanNumerals/JavaRomans.java:28-33 | what is written once entry `i` is reached comes from entry `i` or later |
| RomanNumerals.TableFrom | src/main/java/JavaPlayground/RomanNumerals/JavaRomans.java:8-22 | entries later in the table are worth no more |
| RomanNumerals.GreedyOrdered | src/main/java/JavaPlayground/RomanNumerals/JavaRomans.java:28-33 | the values written never increase |
| RomanNumerals.NumeralOrdered | src/main/java/JavaPlayground/RomanNumerals/JavaRomans.java:8-33 | every symbol of `toNumeral(n)` is a table entry, and the symbols come in table order, largest value first |
| RomanNumerals.GreedyConsumes | src/main/java/JavaPlayground/RomanNumerals/JavaRomans.java:29-31 | each time an entry is written its value is subtracted |
| RomanNumerals.GreedyRepeats | src/main/java/JavaPlayground/RomanNumerals/JavaRomans.java:28-33 | once the previous entry is passed, an entry cannot be written often enough to reach that entry's value |
| RomanNumerals.RepeatLimit | src/main/java/JavaPlayground/RomanNumerals/JavaRomans.java:8-22 | the table allows C, X and I three times, and every other entry but M once |
| RomanNumerals.NumeralRepeats | src/main/java/JavaPlayground/RomanNumerals/JavaRomans.java:8-33 | `toNumeral` writes C, X and I at most three times each, and every other symbol except M at most once |
| RomanNumerals.Parse | src/main/java/JavaPlayground/RomanNumerals/JavaRomans.java:42-47 | no contract; `ParseGreedy`, `ParsePrefix` and `ParseIgnoresRest` state it |
| RomanNumerals.Decode | src/main/java/JavaPlayground/RomanNumerals/JavaRomans.java:38-50 | no contract; `ToInt` is proved to compute it, and `RoundTrip` states that it inverts `Numeral` |
| RomanNumerals.ParseEmpty | src/main/java/JavaPlayground/RomanNumerals/JavaRomans.java:38-50 | `toInt("")` is 0 |
| RomanNumerals.ParsePrefix | src/main/java/JavaPlayground/RomanNumerals/JavaRomans.java:42-47 | the symbols `toInt` matches spell a prefix of the numeral, so the index never passes its end |
| RomanNumerals.ParseIgnoresRest | src/main/java/JavaPlayground/RomanNumerals/JavaRomans.java:42-47 | whatever follows the matched prefix is ignored: the matched prefix alone decodes the same way |
| RomanNumerals.HeadsFrom | src/main/java/JavaPlayground/RomanNumerals/JavaRomans.java:8-22 | the first letter of any later entry's symbol is among the first letters from an entry on |
| RomanNumerals.TableUnambiguous | src/main/java/JavaPlayground/RomanNumerals/JavaRomans.java:8-22 | no entry's symbol begins a later entry's symbol followed by any symbol from that later entry on |
| RomanNumerals.NoFalseMatch | src/main/java/JavaPlayground/RomanNumerals/JavaRomans.java:24-50 | where `toNumeral` passed an entry, `toInt` cannot match that entry |
| RomanNumerals.ParseGreedy | src/main/java/JavaPlayground/RomanNumerals/JavaRomans.java:24-50 | decoding what `toNumeral` writes reads back exactly the entries written |
| RomanNumerals.RoundTrip | src/main/java/JavaPlayground/RomanNumerals/JavaRomans.java:24-50 | `toInt(toNumeral(n)) == n` for every `n >= 0`, and 0 for a negative `n` |
| RomanNumerals.ParseSkips | src/main/java/JavaPlayground/RomanNumerals/JavaRomans.java:42-47 | entries whose symbol does not start the rest are passed over without changing the result |
| RomanNumerals.ReadOnes | src/main/java/JavaPlayground/RomanNumerals/JavaRomans.java:42-47 | the last entry, I, is read as often as it repeats: four times in `"IIII"` |
| RomanNumerals.DecodeRepeated | src/main/java/JavaPlayground/RomanNumerals/JavaRomans.java:42-47 | decoding does not validate: `toInt("IIII")` is 4 |
| RomanNumerals.DecodeStops | src/main/java/JavaPlayground/RomanNumerals/JavaRomans.java:42-47 | reading stops at the first letter no remaining entry matches: `toInt("VX")` is 5 |
| PlaygroundRomans.ToNumeral | src/main/java/JavaPlayground/JavaRomans.java:8-36 | the second `toNumeral`, with its own table, returns `RomanNumerals.Numeral(number)` for every argument. So it is empty exactly for `number <= 0`, adds up to `number`, follows table order and the repeat limits, and decodes back to `number` |

## Left out

- `State.printState`, `LiftKata.main` and `App.java`: output to the console only; they do not affect the stops.
- Integer width: floors, capacities and Roman values are unbounded integers. The source's 32-bit `int` overflow, including `Math.abs` of the smallest `int`, is not modelled.
- LiftKata.Simulate: bounded by a `fuel` count of ticks, because the source loop need not terminate (`NeverFinishesFromInput`). `Unfinished` is the model's own outcome for a run the fuel cut short.
- LiftKata.TheLift: requires `capacity >= 1`, because the invariant behind its guarantees about a finished run needs a lift that can carry someone. `Board` compares with `==` as `hasRoom` does, so `Step`, `Run`, `Tick` and `Simulate` do follow the source for capacity 0 (nobody ever boards) and for a negative capacity (no limit); only `TheLift` excludes these cases.
- LiftSteps.Floors: its own contract states only the number of floors; the people on each floor are stated by `FloorQueue` and used through `TheLift`.
- `LinkedHashMap<Integer, Queue<Person>>` and `ArrayDeque` are modelled as a sequence of sequences indexed by floor.
- A floor the map does not have: `getOrDefault` hands boarding a fresh empty queue, which the model reads as `[]` and never writes back.
- Aliasing: boarding shortens the floor's queue in place, and the model writes the shortened queue back into the building. Java's reference semantics of the queue objects are not modelled.
- Person identity: Java `record` equality is by value, as in the model. `queue.remove(person)` removes the first equal element, which is the one `findFirst` found.
- `AtomicInteger` in both Roman files is a plain local counter, because there is no concurrency.
- `PlaygroundRomans.ToNumeral` takes `int`. A `null` `Integer` argument fails on unboxing in the source and is not modelled.
- The Scala implementations of the kata and their tests are not part of this model.
